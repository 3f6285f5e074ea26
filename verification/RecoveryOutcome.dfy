/** The joint outcome of recovery: what all nodes hold after applying their plans, re-running after a
    partial application, and when the lookback check refuses. */
module RecoveryOutcome {
  import opened Recovery
  import opened Reconciliation

  // ----- lookback -----------------------------------------------------------------------------------

  const I64_MAX: int := 0x7fff_ffff_ffff_ffff

  /** Saturating 64-bit difference. */
  function Spread(max: int, min: int): (r: int) {
    if max - min > I64_MAX then I64_MAX else max - min
  }

  /** f is the largest completed id. */
  ghost predicate IsFrontier(s: Records, f: int) {
    && (exists m :: m in s && m.status == COMPLETED && m.id == f)
    && (forall m :: m in s && m.status == COMPLETED ==> m.id <= f)
  }

  /** No two nodes' largest completed ids are further apart than the lookback; the 64-bit difference saturates,
      so a lookback of 2^63 - 1 or more admits everything. */
  ghost predicate WithinLookback(nodes: seq<Records>, lookback: nat) {
    forall p, q, x, y :: 0 <= p < |nodes| && 0 <= q < |nodes| ==>
      IsFrontier(nodes[p], x) && IsFrontier(nodes[q], y) ==>
        x - y <= lookback || lookback >= 0x7fff_ffff_ffff_ffff
  }

  method MaxCompleted(state: seq<Modification>) returns (r: Option<int>)
    ensures r.Some? ==> IsFrontier(Elements(state), r.value)
    ensures r.None? ==> forall m :: m in state ==> m.status != COMPLETED
  {
    r := None;
    for i := 0 to |state|
      invariant r.None? ==> forall j :: 0 <= j < i ==> state[j].status != COMPLETED
      invariant r.Some? ==> (exists j :: 0 <= j < i && state[j].status == COMPLETED && state[j].id == r.value)
      invariant r.Some? ==> forall j :: 0 <= j < i && state[j].status == COMPLETED ==> state[j].id <= r.value
    {
      if state[i].status == COMPLETED && (r.None? || r.value < state[i].id) {
        r := Some(state[i].id);
      }
    }
    if r.Some? {
      var j :| 0 <= j < |state| && state[j].status == COMPLETED && state[j].id == r.value;
      assert state[j] in Elements(state);
    }
  }

  lemma FrontierUnique(s: Records, x: int, y: int)
    requires IsFrontier(s, x) && IsFrontier(s, y)
    ensures x == y
  {
  }

  ghost function Nodes(all: seq<seq<Modification>>): (r: seq<Records>)
    ensures |r| == |all| && forall p :: 0 <= p < |all| ==> r[p] == Elements(all[p])
  {
    seq(|all|, p requires 0 <= p < |all| => Elements(all[p]))
  }

  /** min and max are the extreme frontiers of the first n nodes. */
  ghost predicate Extremes(nodes: seq<Records>, n: nat, min: Option<int>, max: Option<int>)
    requires n <= |nodes|
  {
    && min.Some? == max.Some?
    && (forall p, x :: 0 <= p < n && IsFrontier(nodes[p], x) ==> min.Some? && min.value <= x <= max.value)
    && (min.Some? ==> exists p :: 0 <= p < n && IsFrontier(nodes[p], min.value))
    && (max.Some? ==> exists p :: 0 <= p < n && IsFrontier(nodes[p], max.value))
  }

  lemma ExtremesNext(nodes: seq<Records>, n: nat, min: Option<int>, max: Option<int>, f: Option<int>, min': Option<int>,
                     max': Option<int>)
    requires n < |nodes| && Extremes(nodes, n, min, max) && (f.Some? ==> IsFrontier(nodes[n], f.value))
    requires (f.None? ==> forall x :: !IsFrontier(nodes[n], x))
    requires f.None? ==> min' == min && max' == max
    requires f.Some? ==> min' == Some(if min.Some? && min.value < f.value then min.value else f.value)
    requires f.Some? ==> max' == Some(if max.Some? && max.value > f.value then max.value else f.value)
    ensures Extremes(nodes, n + 1, min', max')
  {
    forall p, x | 0 <= p < n + 1 && IsFrontier(nodes[p], x)
      ensures min'.Some? && min'.value <= x <= max'.value
    {
      if p == n && f.Some? {
        FrontierUnique(nodes[n], x, f.value);
      }
    }
  }

  lemma ExtremesDecide(nodes: seq<Records>, min: Option<int>, max: Option<int>, lookback: nat)
    requires Extremes(nodes, |nodes|, min, max)
    ensures WithinLookback(nodes, lookback) <==> (min.Some? ==> Spread(max.value, min.value) <= lookback)
  {
    if min.Some? {
      SpreadWithin(max.value, min.value, lookback);
    }
  }

  lemma SpreadWithin(x: int, y: int, lookback: nat)
    ensures Spread(x, y) <= lookback <==> x - y <= lookback || lookback >= 0x7fff_ffff_ffff_ffff
  {
  }

  method EnsureLookback(all: seq<seq<Modification>>, lookback: nat) returns (ok: bool)
    ensures ok <==> WithinLookback(Nodes(all), lookback)
  {
    var min: Option<int>, max: Option<int> := None, None;
    for p := 0 to |all|
      invariant Extremes(Nodes(all), p, min, max)
    {
      var f := MaxCompleted(all[p]);
      ghost var min0, max0 := min, max;
      if f.Some? {
        min := Some(if min.Some? && min.value < f.value then min.value else f.value);
        max := Some(if max.Some? && max.value > f.value then max.value else f.value);
      }
      ExtremesNext(Nodes(all), p, min0, max0, f, min, max);
    }
    ExtremesDecide(Nodes(all), min, max, lookback);
    return min.None? || Spread(max.value, min.value) <= lookback;
  }

  // ----- the plan with apply flags -----------------------------------------------------------------------

  predicate RequiresApply(m: Modification, local: Option<Modification>) {
    m.persisted && !(local.Some? && local.value.status == COMPLETED && local.value.persisted)
  }

  datatype RollForward = RollForward(modification: Modification, apply: bool)
  datatype RecoveryPlan = RecoveryPlan(updates: seq<RollForward>, deletes: seq<Modification>)

  function Modifications(us: seq<RollForward>): (r: seq<Modification>)
    ensures |r| == |us| && forall i :: 0 <= i < |us| ==> r[i] == us[i].modification
  {
    seq(|us|, i requires 0 <= i < |us| => us[i].modification)
  }

  /** A mutation is replayed exactly when it was persisted somewhere and the local node has not
      completed and persisted it. */
  ghost predicate FlagsCorrect(us: seq<RollForward>, my: seq<Modification>, s: Records) {
    forall i :: 0 <= i < |us| ==> (us[i].apply <==> MustReplay(us[i].modification.id, my, s))
  }

  ghost predicate MustReplay(id: int, my: seq<Modification>, s: Records) {
    AnyPersisted(s, id) && forall m :: m in my && m.id == id ==> !(m.status == COMPLETED && m.persisted)
  }

  method MakeRecoveryPlan(my: seq<Modification>, all: seq<seq<Modification>>, lookback: nat)
    returns (r: Outcome<RecoveryPlan>)
    requires UniqueIds(my)
    ensures r.Planned? <==> WithinLookback(Nodes(all), lookback) && Consistent(Union(all))
    ensures r.Planned? ==> IsPlan(Plan(Modifications(r.plan.updates), r.plan.deletes), my, Union(all))
    ensures r.Planned? ==> FlagsCorrect(r.plan.updates, my, Union(all))
    ensures r.Planned? ==> forall u, m :: u in r.plan.updates && m in my && m.id == u.modification.id && u.apply ==>
      !(m.status == "COMPLETED" && m.persisted)
  {
    var ok := EnsureLookback(all, lookback);
    if !ok {
      return Refused;
    }
    var c := CompareModifications(my, all);
    if c.Refused? {
      return Refused;
    }
    var updates := AddFlags(c.plan, my, Union(all));
    assert Plan(Modifications(updates), c.plan.deletes) == c.plan;
    FlagsSpare(updates, my, Union(all));
    return Planned(RecoveryPlan(updates, c.plan.deletes));
  }

  lemma FlagsSpare(us: seq<RollForward>, my: seq<Modification>, s: Records)
    requires FlagsCorrect(us, my, s)
    ensures forall u, m :: u in us && m in my && m.id == u.modification.id && u.apply ==>
      !(m.status == "COMPLETED" && m.persisted)
  {
    forall u, m | u in us && m in my && m.id == u.modification.id && u.apply
      ensures !(m.status == "COMPLETED" && m.persisted)
    {
      var i :| 0 <= i < |us| && us[i] == u;
      assert us[i].apply <==> MustReplay(us[i].modification.id, my, s);
    }
  }

  method AddFlags(plan: Plan, my: seq<Modification>, ghost s: Records) returns (us: seq<RollForward>)
    requires UniqueIds(my) && IsPlan(plan, my, s)
    ensures Modifications(us) == plan.updates && FlagsCorrect(us, my, s)
  {
    us := [];
    for i := 0 to |plan.updates|
      invariant |us| == i && FlagsCorrect(us, my, s) && forall j :: 0 <= j < i ==> us[j].modification == plan.updates[j]
    {
      var u := plan.updates[i];
      assert u in plan.updates;
      var local := Find(my, u.id);
      OnlyLocal(my, local, u.id);
      us := us + [RollForward(u, RequiresApply(u, local))];
    }
  }

  // ----- applying ----------------------------------------------------------------------------------------------

  /** The records of a node after its plan: deleted ones gone, updated ones replaced. */
  ghost function Applied(my: Records, plan: Plan): (r: Records) {
    (set m | m in my && m !in plan.deletes && forall u :: u in plan.updates ==> u.id != m.id) + Elements(plan.updates)
  }

  ghost function SerialAt(s: Records, id: int): (r: Option<int>)
    ensures IsSerial(s, id, r)
  {
    if exists x :: HasSerial(s, id, x) then
      var x :| HasSerial(s, id, x);
      Some(x)
    else
      assert forall m :: m in s && m.id == id && m.serial.Some? ==> HasSerial(s, id, m.serial.value);
      None
  }

  /** What everybody ends up with for a modification that was completed somewhere. */
  ghost function Settled(m: Modification, s: Records): (r: Modification) {
    Modification(m.id, SerialAt(s, m.id), m.request, m.input, COMPLETED, AnyPersisted(s, m.id))
  }

  ghost function Recovered(my: Records, s: Records): (r: Records)
    ensures forall x :: x in r <==> exists m :: m in my && AnyCompleted(s, m.id) && x == Settled(m, s)
  {
    set m | m in my && AnyCompleted(s, m.id) :: Settled(m, s)
  }

  lemma RollForwardIsSettled(u: Modification, m: Modification, s: Records)
    requires Consistent(s) && m in s && IsRollForward(u, m.id, s)
    ensures u == Settled(m, s)
  {
    var q :| q in s && q.id == m.id && q.status == COMPLETED && u.request == q.request && u.input == q.input;
    assert Compatible(q, m);
    assert ConsistentAt(s, m.id);
    SerialUnique(s, m.id, u.serial, SerialAt(s, m.id));
  }

  lemma InSyncIsSettled(m: Modification, s: Records)
    requires Consistent(s) && m in s
    ensures InSync(m, s) <==> m == Settled(m, s)
  {
    assert ConsistentAt(s, m.id);
    if InSync(m, s) {
      SerialUnique(s, m.id, m.serial, SerialAt(s, m.id));
    }
  }

  /** Whatever plan is computed, applying it gives the settled records. */
  lemma AppliedIsOutcome(my: seq<Modification>, s: Records, plan: Plan)
    requires UniqueIds(my) && Consistent(s) && Elements(my) <= s && IsPlan(plan, my, s)
    ensures Applied(Elements(my), plan) == Recovered(Elements(my), s)
  {
    forall x
      ensures x in Applied(Elements(my), plan) <==> x in Recovered(Elements(my), s)
    {
      if x in Applied(Elements(my), plan) {
        AppliedInOutcome(my, s, plan, x);
      }
      if x in Recovered(Elements(my), s) {
        OutcomeInApplied(my, s, plan, x);
      }
    }
  }

  lemma AppliedInOutcome(my: seq<Modification>, s: Records, plan: Plan, x: Modification)
    requires UniqueIds(my) && Consistent(s) && Elements(my) <= s && IsPlan(plan, my, s)
    requires x in Applied(Elements(my), plan)
    ensures x in Recovered(Elements(my), s)
  {
    if x in plan.updates {
      var m :| m in my && m.id == x.id && NeedsUpdate(m, s);
      assert m in Elements(my);
      RollForwardIsSettled(x, m, s);
    } else {
      assert x in my && x in s && !NeedsDelete(x, s) && !NeedsUpdate(x, s);
      assert Holds(s, x.id);
      InSyncIsSettled(x, s);
    }
  }

  lemma OutcomeInApplied(my: seq<Modification>, s: Records, plan: Plan, x: Modification)
    requires UniqueIds(my) && Consistent(s) && Elements(my) <= s && IsPlan(plan, my, s)
    requires x in Recovered(Elements(my), s)
    ensures x in Applied(Elements(my), plan)
  {
    var m :| m in Elements(my) && AnyCompleted(s, m.id) && x == Settled(m, s);
    if NeedsUpdate(m, s) {
      var u := UpdateFor(my, s, plan, m);
      RollForwardIsSettled(u, m, s);
      UpdateApplies(my, plan, u);
    } else {
      InSyncIsSettled(m, s);
      Untouched(my, s, plan, m);
    }
  }

  lemma UpdateFor(my: seq<Modification>, s: Records, plan: Plan, m: Modification) returns (u: Modification)
    requires IsPlan(plan, my, s) && m in my && NeedsUpdate(m, s)
    ensures u in plan.updates && u.id == m.id && IsRollForward(u, m.id, s)
  {
    u :| u in plan.updates && u.id == m.id;
  }

  lemma UpdateApplies(my: seq<Modification>, plan: Plan, u: Modification)
    requires u in plan.updates
    ensures u in Applied(Elements(my), plan)
  {
  }

  lemma Untouched(my: seq<Modification>, s: Records, plan: Plan, m: Modification)
    requires UniqueIds(my) && IsPlan(plan, my, s) && m in my && AnyCompleted(s, m.id) && !NeedsUpdate(m, s)
    ensures m in Applied(Elements(my), plan)
  {
    assert m !in plan.deletes;
    forall u | u in plan.updates
      ensures u.id != m.id
    {
      OtherUpdate(my, s, plan, m, u);
    }
    KeptApplies(my, plan, m);
  }

  lemma OtherUpdate(my: seq<Modification>, s: Records, plan: Plan, m: Modification, u: Modification)
    requires UniqueIds(my) && IsPlan(plan, my, s) && m in my && !NeedsUpdate(m, s) && u in plan.updates
    ensures u.id != m.id
  {
    var n := UpdatedFrom(my, s, plan, u);
    assert n.id == m.id ==> n == m by {
      if n.id == m.id {
        SameRecord(my, m, n);
      }
    }
  }

  lemma UpdatedFrom(my: seq<Modification>, s: Records, plan: Plan, u: Modification) returns (n: Modification)
    requires IsPlan(plan, my, s) && u in plan.updates
    ensures n in my && n.id == u.id && NeedsUpdate(n, s)
  {
    n :| n in my && n.id == u.id && NeedsUpdate(n, s);
  }

  lemma KeptApplies(my: seq<Modification>, plan: Plan, m: Modification)
    requires m in my && m !in plan.deletes && forall u :: u in plan.updates ==> u.id != m.id
    ensures m in Applied(Elements(my), plan)
  {
  }

  lemma SameRecord(my: seq<Modification>, m: Modification, n: Modification)
    requires UniqueIds(my) && m in my && n in my && m.id == n.id
    ensures m == n
  {
  }

  // ----- all nodes together ---------------------------------------------------------------------------------

  ghost function Everything(nodes: seq<Records>): (s: Records)
    ensures forall m :: m in s <==> exists p :: 0 <= p < |nodes| && m in nodes[p]
  {
    set p, m | 0 <= p < |nodes| && m in nodes[p] :: m
  }

  /** Refusal depends on the snapshots, not on who asks or in which order they are listed. */
  lemma RefuseTogether(all: seq<seq<Modification>>, other: seq<seq<Modification>>, lookback: nat)
    requires forall a :: a in all <==> a in other
    ensures Union(all) == Union(other)
    ensures WithinLookback(Nodes(all), lookback) <==> WithinLookback(Nodes(other), lookback)
  {
    UnionSubset(all, other);
    UnionSubset(other, all);
    LookbackSubset(all, other, lookback);
    LookbackSubset(other, all, lookback);
  }

  lemma UnionSubset(all: seq<seq<Modification>>, other: seq<seq<Modification>>)
    requires forall a :: a in all ==> a in other
    ensures Union(all) <= Union(other)
  {
    forall m | m in Union(all)
      ensures m in Union(other)
    {
      var p :| 0 <= p < |all| && m in all[p];
      assert all[p] in other;
      var q :| 0 <= q < |other| && other[q] == all[p];
    }
  }

  lemma LookbackSubset(all: seq<seq<Modification>>, other: seq<seq<Modification>>, lookback: nat)
    requires forall a :: a in all ==> a in other
    ensures WithinLookback(Nodes(other), lookback) ==> WithinLookback(Nodes(all), lookback)
  {
    if !WithinLookback(Nodes(other), lookback) {
      return;
    }
    forall p, q, x, y | 0 <= p < |all| && 0 <= q < |all| && IsFrontier(Nodes(all)[p], x) && IsFrontier(Nodes(all)[q], y)
      ensures x - y <= lookback || lookback >= 0x7fff_ffff_ffff_ffff
    {
      assert all[p] in other && all[q] in other;
      var p' :| 0 <= p' < |other| && other[p'] == all[p];
      var q' :| 0 <= q' < |other| && other[q'] == all[q];
      assert IsFrontier(Nodes(other)[p'], x) && IsFrontier(Nodes(other)[q'], y);
    }
  }

  /** Surviving copies of an id are equal: completed, with one persisted flag and one serial id. */
  lemma SurvivorsAgree(a: Modification, b: Modification, my: Records, other: Records, s: Records)
    requires Consistent(s) && my <= s && other <= s && a in Recovered(my, s) && b in Recovered(other, s) && a.id == b.id
    ensures a == b && a.status == COMPLETED
  {
    var m :| m in my && AnyCompleted(s, m.id) && a == Settled(m, s);
    var n :| n in other && AnyCompleted(s, n.id) && b == Settled(n, s);
    assert Compatible(m, n);
  }

  /** Some nodes have applied their plans, others crashed before. */
  ghost function PartlyApplied(nodes: seq<Records>, applied: seq<bool>): (r: seq<Records>)
    requires |applied| == |nodes|
    ensures |r| == |nodes|
    ensures forall p :: 0 <= p < |nodes| ==>
      r[p] == if applied[p] then Recovered(nodes[p], Everything(nodes)) else nodes[p]
  {
    var s := Everything(nodes);
    seq(|nodes|, p requires 0 <= p < |nodes| => if applied[p] then Recovered(nodes[p], s) else nodes[p])
  }

  /** Every record of the mixed state is an original or settled one. */
  lemma MixedRecord(nodes: seq<Records>, applied: seq<bool>, x: Modification)
    requires |applied| == |nodes| && x in Everything(PartlyApplied(nodes, applied))
    ensures x in Everything(nodes) || IsSettledIn(x, Everything(nodes))
  {
    var r := PartlyApplied(nodes, applied);
    var p := NodeOf(r, x);
    NodeInside(nodes, p);
    MixedAt(nodes[p], Everything(nodes), applied[p], x);
  }

  lemma NodeOf(nodes: seq<Records>, x: Modification) returns (p: nat)
    requires x in Everything(nodes)
    ensures p < |nodes| && x in nodes[p]
  {
    p :| 0 <= p < |nodes| && x in nodes[p];
  }

  lemma NodeInside(nodes: seq<Records>, p: nat)
    requires p < |nodes|
    ensures nodes[p] <= Everything(nodes)
  {
  }

  lemma MixedAt(my: Records, s: Records, applied: bool, x: Modification)
    requires my <= s && x in (if applied then Recovered(my, s) else my)
    ensures x in s || IsSettledIn(x, s)
  {
    if applied {
      SettledFrom(x, my, s);
    }
  }

  ghost predicate IsSettledIn(x: Modification, s: Records) {
    exists m :: m in s && AnyCompleted(s, m.id) && x == Settled(m, s)
  }

  lemma SettledFrom(x: Modification, my: Records, s: Records)
    requires my <= s && x in Recovered(my, s)
    ensures IsSettledIn(x, s)
  {
  }

  /** Every original record of a completed id is still there, as it was or settled. */
  lemma MixedKeeps(nodes: seq<Records>, applied: seq<bool>, m: Modification)
    requires |applied| == |nodes| && m in Everything(nodes) && AnyCompleted(Everything(nodes), m.id)
    ensures var t := Everything(PartlyApplied(nodes, applied)); m in t || Settled(m, Everything(nodes)) in t
  {
    var r := PartlyApplied(nodes, applied);
    var p :| 0 <= p < |nodes| && m in nodes[p];
    if applied[p] {
      assert Settled(m, Everything(nodes)) in r[p];
    } else {
      assert m in r[p];
    }
  }

  lemma MixedCompleted(nodes: seq<Records>, applied: seq<bool>, id: int)
    requires |applied| == |nodes|
    ensures AnyCompleted(Everything(PartlyApplied(nodes, applied)), id) <==> AnyCompleted(Everything(nodes), id)
  {
    var s, t := Everything(nodes), Everything(PartlyApplied(nodes, applied));
    if AnyCompleted(s, id) {
      var m :| m in s && m.id == id && m.status == COMPLETED;
      MixedKeeps(nodes, applied, m);
      assert Settled(m, s).status == COMPLETED && Settled(m, s).id == id;
    }
    if AnyCompleted(t, id) {
      var x :| x in t && x.id == id && x.status == COMPLETED;
      MixedRecord(nodes, applied, x);
    }
  }

  lemma MixedPersisted(nodes: seq<Records>, applied: seq<bool>, id: int)
    requires |applied| == |nodes| && AnyCompleted(Everything(nodes), id)
    ensures AnyPersisted(Everything(PartlyApplied(nodes, applied)), id) <==> AnyPersisted(Everything(nodes), id)
  {
    var s, t := Everything(nodes), Everything(PartlyApplied(nodes, applied));
    if AnyPersisted(s, id) {
      var m :| m in s && m.id == id && m.persisted;
      MixedKeeps(nodes, applied, m);
      assert Settled(m, s).persisted && Settled(m, s).id == id;
    }
    if AnyPersisted(t, id) {
      var x :| x in t && x.id == id && x.persisted;
      MixedRecord(nodes, applied, x);
    }
  }

  lemma MixedSerial(nodes: seq<Records>, applied: seq<bool>, id: int, x: int)
    requires |applied| == |nodes| && Consistent(Everything(nodes)) && AnyCompleted(Everything(nodes), id)
    ensures HasSerial(Everything(PartlyApplied(nodes, applied)), id, x) <==> HasSerial(Everything(nodes), id, x)
  {
    var s, t := Everything(nodes), Everything(PartlyApplied(nodes, applied));
    assert ConsistentAt(s, id);
    if HasSerial(s, id, x) {
      var m :| m in s && m.id == id && m.serial == Some(x);
      SerialUnique(s, id, Some(x), SerialAt(s, id));
      MixedKeeps(nodes, applied, m);
      assert Settled(m, s).serial == Some(x) && Settled(m, s).id == id;
    }
    if HasSerial(t, id, x) {
      var y :| y in t && y.id == id && y.serial == Some(x);
      MixedRecord(nodes, applied, y);
    }
  }

  // ----- re-running ---------------------------------------------------------------------------------------------

  lemma MixedSettles(nodes: seq<Records>, applied: seq<bool>, m: Modification)
    requires |applied| == |nodes| && Consistent(Everything(nodes)) && AnyCompleted(Everything(nodes), m.id)
    requires Consistent(Everything(PartlyApplied(nodes, applied)))
    ensures Settled(m, Everything(PartlyApplied(nodes, applied))) == Settled(m, Everything(nodes))
  {
    var s, t := Everything(nodes), Everything(PartlyApplied(nodes, applied));
    MixedPersisted(nodes, applied, m.id);
    forall x: int
      ensures HasSerial(t, m.id, x) <==> HasSerial(s, m.id, x)
    {
      MixedSerial(nodes, applied, m.id, x);
    }
    SerialTransfers(t, s, m.id);
    assert ConsistentAt(t, m.id);
    SerialUnique(t, m.id, SerialAt(t, m.id), SerialAt(s, m.id));
  }

  lemma SerialTransfers(t: Records, s: Records, id: int)
    requires forall x: int :: HasSerial(t, id, x) <==> HasSerial(s, id, x)
    ensures IsSerial(t, id, SerialAt(s, id))
  {
    if SerialAt(s, id).None? {
      forall m | m in t && m.id == id
        ensures m.serial == None
      {
        if m.serial.Some? {
          assert HasSerial(t, id, m.serial.value);
        }
      }
    }
  }

  /** Mixed states pass the consistency check. */
  lemma MixedConsistent(nodes: seq<Records>, applied: seq<bool>)
    requires |applied| == |nodes| && Consistent(Everything(nodes))
    ensures Consistent(Everything(PartlyApplied(nodes, applied)))
  {
    var s, t := Everything(nodes), Everything(PartlyApplied(nodes, applied));
    forall x | x in t
      ensures x.status == "IN_PROGRESS" || x.status == "COMPLETED"
    {
      MixedRecord(nodes, applied, x);
    }
    forall x, y | x in t && y in t && x.id == y.id
      ensures Compatible(x, y)
    {
      MixedRecord(nodes, applied, x);
      MixedRecord(nodes, applied, y);
      var m := Origin(x, s);
      var n := Origin(y, s);
      assert Compatible(m, n);
      OriginSerial(x, m, s);
      OriginSerial(y, n, s);
      assert ConsistentAt(s, x.id);
      if x.serial.Some? && y.serial.Some? {
        SerialUnique(s, x.id, x.serial, y.serial);
      }
    }
  }

  lemma Origin(x: Modification, s: Records) returns (m: Modification)
    requires x in s || IsSettledIn(x, s)
    ensures m in s && m.id == x.id && m.request == x.request && m.input == x.input && (x == m || x == Settled(m, s))
  {
    if x in s {
      m := x;
    } else {
      m :| m in s && AnyCompleted(s, m.id) && x == Settled(m, s);
    }
  }

  lemma OriginSerial(x: Modification, m: Modification, s: Records)
    requires m in s && m.id == x.id && (x == m || x == Settled(m, s))
    ensures x.serial.Some? ==> IsSerial(s, x.id, x.serial)
  {
    if x == m && x.serial.Some? {
      assert HasSerial(s, x.id, x.serial.value);
    }
  }

  /** Re-running recovery after any part of the nodes has applied its plan leads every node to the
      same records as an undisturbed run. */
  lemma CrashThenRerun(nodes: seq<Records>, applied: seq<bool>, p: nat)
    requires |applied| == |nodes| && Consistent(Everything(nodes)) && p < |nodes|
    ensures var mixed := PartlyApplied(nodes, applied);
      Consistent(Everything(mixed)) && Recovered(mixed[p], Everything(mixed)) == Recovered(nodes[p], Everything(nodes))
  {
    var mixed := PartlyApplied(nodes, applied);
    var s, t := Everything(nodes), Everything(mixed);
    MixedConsistent(nodes, applied);
    forall x
      ensures x in Recovered(mixed[p], t) <==> x in Recovered(nodes[p], s)
    {
      if x in Recovered(mixed[p], t) {
        RerunStays(nodes, applied, p, x);
      }
      if x in Recovered(nodes[p], s) {
        RerunReaches(nodes, applied, p, x);
      }
    }
  }

  lemma RerunStays(nodes: seq<Records>, applied: seq<bool>, p: nat, x: Modification)
    requires |applied| == |nodes| && Consistent(Everything(nodes)) && p < |nodes|
    requires Consistent(Everything(PartlyApplied(nodes, applied)))
    requires x in Recovered(PartlyApplied(nodes, applied)[p], Everything(PartlyApplied(nodes, applied)))
    ensures x in Recovered(nodes[p], Everything(nodes))
  {
    var mixed := PartlyApplied(nodes, applied);
    var s, t := Everything(nodes), Everything(mixed);
    var y: Modification :| y in mixed[p] && AnyCompleted(t, y.id) && x == Settled(y, t);
    MixedCompleted(nodes, applied, y.id);
    MixedSettles(nodes, applied, y);
    if applied[p] {
      var m :| m in nodes[p] && AnyCompleted(s, m.id) && y == Settled(m, s);
      assert x == Settled(m, s);
    }
  }

  lemma RerunReaches(nodes: seq<Records>, applied: seq<bool>, p: nat, x: Modification)
    requires |applied| == |nodes| && Consistent(Everything(nodes)) && p < |nodes|
    requires Consistent(Everything(PartlyApplied(nodes, applied)))
    requires x in Recovered(nodes[p], Everything(nodes))
    ensures x in Recovered(PartlyApplied(nodes, applied)[p], Everything(PartlyApplied(nodes, applied)))
  {
    var mixed := PartlyApplied(nodes, applied);
    var s, t := Everything(nodes), Everything(mixed);
    var m :| m in nodes[p] && AnyCompleted(s, m.id) && x == Settled(m, s);
    MixedCompleted(nodes, applied, m.id);
    var y := if applied[p] then Settled(m, s) else m;
    assert y in mixed[p];
    MixedSettles(nodes, applied, y);
  }

  ghost function AllApplied(nodes: seq<Records>): (r: seq<Records>)
    ensures |r| == |nodes| && forall p :: 0 <= p < |nodes| ==> r[p] == Recovered(nodes[p], Everything(nodes))
  {
    PartlyApplied(nodes, Everybody(nodes))
  }

  function Everybody(nodes: seq<Records>): (applied: seq<bool>)
    ensures |applied| == |nodes| && forall p :: 0 <= p < |nodes| ==> applied[p]
  {
    seq(|nodes|, _ => true)
  }

  /** In the re-run a node that had applied its plan has nothing left to do, so it replays nothing. */
  lemma AppliedPlansNothing(nodes: seq<Records>, applied: seq<bool>, p: nat, my: seq<Modification>, plan: Plan)
    requires |applied| == |nodes| && Consistent(Everything(nodes)) && p < |nodes| && applied[p]
    requires Elements(my) == PartlyApplied(nodes, applied)[p]
    requires IsPlan(plan, my, Everything(PartlyApplied(nodes, applied)))
    ensures plan == Plan([], [])
  {
    var mixed := PartlyApplied(nodes, applied);
    var t := Everything(mixed);
    MixedConsistent(nodes, applied);
    forall x | x in my
      ensures !NeedsUpdate(x, t) && !NeedsDelete(x, t)
    {
      assert x in Elements(my) && x in mixed[p] && x in t;
      SettledIsSettled(nodes, applied, p, x);
    }
    NothingListed(plan.updates);
    NothingListed(plan.deletes);
  }

  lemma NothingListed(ms: seq<Modification>)
    requires forall m :: m !in ms
    ensures ms == []
  {
    FirstListed(ms);
  }

  lemma FirstListed(ms: seq<Modification>)
    ensures ms == [] || exists m :: m in ms
  {
    if ms != [] {
      assert ms[0] in ms;
    }
  }

  lemma SettledIsSettled(nodes: seq<Records>, applied: seq<bool>, p: nat, x: Modification)
    requires |applied| == |nodes| && Consistent(Everything(nodes)) && p < |nodes| && applied[p]
    requires x in PartlyApplied(nodes, applied)[p] && x in Everything(PartlyApplied(nodes, applied))
    ensures var t := Everything(PartlyApplied(nodes, applied)); !NeedsUpdate(x, t) && !NeedsDelete(x, t)
  {
    var s, t := Everything(nodes), Everything(PartlyApplied(nodes, applied));
    var m :| m in nodes[p] && AnyCompleted(s, m.id) && x == Settled(m, s);
    MixedConsistent(nodes, applied);
    MixedCompleted(nodes, applied, x.id);
    MixedSettles(nodes, applied, x);
    InSyncIsSettled(x, t);
  }

  /** A node that had not is told to replay exactly what it was told before the crash. */
  lemma RerunReplaysTheSame(nodes: seq<Records>, applied: seq<bool>, my: seq<Modification>, id: int)
    requires |applied| == |nodes| && AnyCompleted(Everything(nodes), id)
    ensures MustReplay(id, my, Everything(PartlyApplied(nodes, applied))) <==> MustReplay(id, my, Everything(nodes))
  {
    MixedPersisted(nodes, applied, id);
  }

  /** Once everybody has applied its plan, a second comparison plans nothing. */
  lemma SecondPlanIsEmpty(nodes: seq<Records>, p: nat, my: seq<Modification>, plan: Plan)
    requires Consistent(Everything(nodes)) && p < |nodes| && Elements(my) == AllApplied(nodes)[p]
    requires IsPlan(plan, my, Everything(AllApplied(nodes)))
    ensures plan == Plan([], [])
  {
    AppliedPlansNothing(nodes, Everybody(nodes), p, my, plan);
  }

  // ----- the second lookback check --------------------------------------------------------------------------------

  /** x is the largest id the node holds that some node has completed. */
  ghost predicate IsSettledFrontier(my: Records, s: Records, x: int) {
    && AnyCompleted(s, x) && (exists m :: m in my && m.id == x)
    && forall m :: m in my && AnyCompleted(s, m.id) ==> m.id <= x
  }

  lemma FrontierAfter(my: Records, s: Records, x: int)
    ensures IsFrontier(Recovered(my, s), x) <==> IsSettledFrontier(my, s, x)
  {
    var after := Recovered(my, s);
    forall m | m in my && AnyCompleted(s, m.id)
      ensures Settled(m, s) in after
    {
    }
    if IsFrontier(after, x) {
      var y :| y in after && y.status == COMPLETED && y.id == x;
      var m :| m in my && AnyCompleted(s, m.id) && y == Settled(m, s);
    }
    if IsSettledFrontier(my, s, x) {
      var m :| m in my && m.id == x;
      assert Settled(m, s) in after && Settled(m, s).id == x;
    }
  }

  /** The frontier of a node in the mixed state, told from its snapshot before the first recovery: the largest
      completed-somewhere id it holds if it has applied its plan, else the largest it had completed itself. */
  ghost predicate IsMixedFrontier(my: Records, s: Records, applied: bool, x: int) {
    if applied then IsSettledFrontier(my, s, x) else IsFrontier(my, x)
  }

  ghost predicate MixedWithin(nodes: seq<Records>, applied: seq<bool>, s: Records, lookback: nat)
    requires |applied| == |nodes|
  {
    forall p, q, x, y :: 0 <= p < |nodes| && 0 <= q < |nodes| ==>
      IsMixedFrontier(nodes[p], s, applied[p], x) && IsMixedFrontier(nodes[q], s, applied[q], y) ==>
        x - y <= lookback || lookback >= 0x7fff_ffff_ffff_ffff
  }

  lemma MixedFrontiers(nodes: seq<Records>, applied: seq<bool>, p: nat, x: int)
    requires |applied| == |nodes| && p < |nodes|
    ensures IsFrontier(PartlyApplied(nodes, applied)[p], x)
       <==> IsMixedFrontier(nodes[p], Everything(nodes), applied[p], x)
  {
    if applied[p] {
      FrontierAfter(nodes[p], Everything(nodes), x);
    }
  }

  /** Whether a re-run passes the lookback check, whoever has applied its plan, can be told from the snapshots
      of the first recovery. */
  lemma RerunLookback(nodes: seq<Records>, applied: seq<bool>, lookback: nat)
    requires |applied| == |nodes|
    ensures WithinLookback(PartlyApplied(nodes, applied), lookback) <==>
      MixedWithin(nodes, applied, Everything(nodes), lookback)
  {
    var s, mixed := Everything(nodes), PartlyApplied(nodes, applied);
    forall p: nat, x: int | p < |nodes|
      ensures IsFrontier(mixed[p], x) <==> IsMixedFrontier(nodes[p], s, applied[p], x)
    {
      MixedFrontiers(nodes, applied, p, x);
    }
  }

  /** The lookback check is the only thing that can refuse a re-run. */
  lemma RerunPlanned(nodes: seq<Records>, applied: seq<bool>, lookback: nat)
    requires |applied| == |nodes| && Consistent(Everything(nodes))
    ensures var mixed := PartlyApplied(nodes, applied);
      WithinLookback(mixed, lookback) && Consistent(Everything(mixed))
      <==> MixedWithin(nodes, applied, Everything(nodes), lookback)
  {
    RerunLookback(nodes, applied, lookback);
    MixedConsistent(nodes, applied);
  }

  ghost predicate SettledWithin(nodes: seq<Records>, s: Records, lookback: nat) {
    forall p, q, x, y :: 0 <= p < |nodes| && 0 <= q < |nodes| ==>
      IsSettledFrontier(nodes[p], s, x) && IsSettledFrontier(nodes[q], s, y) ==>
        x - y <= lookback || lookback >= 0x7fff_ffff_ffff_ffff
  }

  /** The same when everybody has. */
  lemma SecondLookback(nodes: seq<Records>, lookback: nat)
    ensures WithinLookback(AllApplied(nodes), lookback) <==> SettledWithin(nodes, Everything(nodes), lookback)
  {
    var s, applied := Everything(nodes), Everybody(nodes);
    RerunLookback(nodes, applied, lookback);
    forall p: nat, x: int | p < |nodes|
      ensures IsSettledFrontier(nodes[p], s, x) <==> IsMixedFrontier(nodes[p], s, applied[p], x)
    {
    }
  }

  // ----- nothing is replayed twice ----------------------------------------------------------------------------------

  /** A node's plan with its flags, computed from the snapshots s. */
  ghost predicate IsFlaggedPlan(us: seq<RollForward>, deletes: seq<Modification>, my: seq<Modification>, s: Records) {
    UniqueIds(my) && IsPlan(Plan(Modifications(us), deletes), my, s) && FlagsCorrect(us, my, s)
  }

  ghost predicate Replays(us: seq<RollForward>, id: int) {
    exists u :: u in us && u.modification.id == id && u.apply
  }

  /** Over a first run, a crash and a re-run no node replays a mutation it had completed and persisted. */
  lemma NeverReplayed(nodes: seq<Records>, applied: seq<bool>, p: nat, m: Modification,
                      my: seq<Modification>, us: seq<RollForward>, deletes: seq<Modification>,
                      my': seq<Modification>, us': seq<RollForward>, deletes': seq<Modification>)
    requires |applied| == |nodes| && Consistent(Everything(nodes)) && p < |nodes|
    requires Elements(my) == nodes[p] && IsFlaggedPlan(us, deletes, my, Everything(nodes))
    requires Elements(my') == PartlyApplied(nodes, applied)[p]
    requires IsFlaggedPlan(us', deletes', my', Everything(PartlyApplied(nodes, applied)))
    requires m in my && m.status == "COMPLETED" && m.persisted
    ensures !Replays(us, m.id) && !Replays(us', m.id)
  {
    LocalNotReplayed(my, us, deletes, Everything(nodes), m);
    if applied[p] {
      AppliedPlansNothing(nodes, applied, p, my', Plan(Modifications(us'), deletes'));
      assert |us'| == 0;
    } else {
      assert m in Elements(my');
      LocalNotReplayed(my', us', deletes', Everything(PartlyApplied(nodes, applied)), m);
    }
  }

  /** Nor does the re-run repeat what a node replayed with the plan it applied. */
  lemma NotReplayedAgain(nodes: seq<Records>, applied: seq<bool>, p: nat, id: int,
                         my': seq<Modification>, us': seq<RollForward>, deletes': seq<Modification>)
    requires |applied| == |nodes| && Consistent(Everything(nodes)) && p < |nodes| && applied[p]
    requires Elements(my') == PartlyApplied(nodes, applied)[p]
    requires IsFlaggedPlan(us', deletes', my', Everything(PartlyApplied(nodes, applied)))
    ensures !Replays(us', id)
  {
    AppliedPlansNothing(nodes, applied, p, my', Plan(Modifications(us'), deletes'));
    assert |us'| == 0;
  }

  lemma LocalNotReplayed(my: seq<Modification>, us: seq<RollForward>, deletes: seq<Modification>, s: Records,
                         m: Modification)
    requires IsFlaggedPlan(us, deletes, my, s) && m in my && m.status == "COMPLETED" && m.persisted
    ensures !Replays(us, m.id)
  {
    forall u | u in us && u.modification.id == m.id
      ensures !u.apply
    {
      var i :| 0 <= i < |us| && us[i] == u;
      assert us[i].apply <==> MustReplay(us[i].modification.id, my, s);
    }
  }

  function Done(id: int): (m: Modification) {
    Modification(id, None, "r", None, COMPLETED, true)
  }

  function Waiting(id: int): (m: Modification) {
    Modification(id, None, "r", None, IN_PROGRESS, false)
  }

  lemma OneFrontier(id: int, x: int)
    ensures IsFrontier({Done(id)}, x) <==> x == id
  {
    assert Done(id) in {Done(id)};
  }

  /** The boundary: a gap of exactly the lookback passes, one more is refused. */
  lemma LookbackBoundary(id: int, gap: nat, lookback: nat)
    requires lookback < 0x7fff_ffff_ffff_ffff
    ensures WithinLookback([{Done(id)}, {Done(id + gap)}, {}], lookback) <==> gap <= lookback
  {
    var nodes: seq<Records> := [{Done(id)}, {Done(id + gap)}, {}];
    forall x
      ensures IsFrontier(nodes[0], x) <==> x == id
      ensures IsFrontier(nodes[1], x) <==> x == id + gap
      ensures !IsFrontier(nodes[2], x)
    {
      OneFrontier(id, x);
      OneFrontier(id + gap, x);
    }
    if WithinLookback(nodes, lookback) {
      assert IsFrontier(nodes[1], id + gap) && IsFrontier(nodes[0], id);
    }
  }

  /** Two nodes have completed 1 and n, one still has 1 in progress. */
  ghost function Lagging(n: int): (nodes: seq<Records>) {
    [{Done(1), Done(n)}, {Waiting(1)}, {Done(1), Done(n)}]
  }

  lemma LaggingRecords(n: int)
    ensures forall m :: m in Everything(Lagging(n)) <==> m == Done(1) || m == Done(n) || m == Waiting(1)
    ensures Consistent(Everything(Lagging(n)))
  {
    var nodes := Lagging(n);
    assert Done(1) in nodes[0] && Done(n) in nodes[0] && Waiting(1) in nodes[1];
  }

  lemma LaggingFrontier(n: int, x: int)
    requires n >= 1
    ensures IsFrontier({Done(1), Done(n)}, x) <==> x == n
    ensures !IsFrontier({Waiting(1)}, x)
  {
    assert IN_PROGRESS[0] != COMPLETED[0];
    assert Done(n) in {Done(1), Done(n)};
  }

  lemma LaggingFrontiers(n: int, lookback: nat)
    requires n >= 1
    ensures WithinLookback(Lagging(n), lookback)
  {
    var nodes := Lagging(n);
    forall p, x | 0 <= p < 3 && IsFrontier(nodes[p], x)
      ensures x == n
    {
      LaggingFrontier(n, x);
    }
  }

  lemma LaggingSettled(n: int)
    requires n >= 1
    ensures var nodes, s := Lagging(n), Everything(Lagging(n));
      IsSettledFrontier(nodes[0], s, n) && IsSettledFrontier(nodes[1], s, 1)
  {
    var nodes, s := Lagging(n), Everything(Lagging(n));
    LaggingRecords(n);
    assert Done(1) in s && Done(n) in s;
    assert AnyCompleted(s, 1) && AnyCompleted(s, n);
    assert Waiting(1) in nodes[1] && Done(n) in nodes[0];
  }

  /** A node that had completed nothing gains an old frontier: recovery succeeds and is refused the next time,
      if anybody was further ahead than the lookback. The others need not even have applied their plans: it is
      enough that the lagging node has when somebody crashes and recovery is run again. */
  lemma SecondRecoveryRefused(n: int, lookback: nat, applied: seq<bool>)
    requires 1 <= n <= I64_MAX && |applied| == 3 && applied[1]
    ensures Consistent(Everything(Lagging(n))) && WithinLookback(Lagging(n), lookback)
    ensures n > lookback + 1 ==> !WithinLookback(PartlyApplied(Lagging(n), applied), lookback)
  {
    var nodes, s := Lagging(n), Everything(Lagging(n));
    LaggingRecords(n);
    LaggingFrontiers(n, lookback);
    LaggingSettled(n);
    LaggingFrontier(n, n);
    RerunLookback(nodes, applied, lookback);
    assert IsMixedFrontier(nodes[0], s, applied[0], n) && IsMixedFrontier(nodes[1], s, applied[1], 1);
    TooFarApart(nodes, applied, s, n, lookback);
  }

  lemma TooFarApart(nodes: seq<Records>, applied: seq<bool>, s: Records, n: int, lookback: nat)
    requires 1 <= n <= I64_MAX && |applied| == |nodes| >= 2
    requires IsMixedFrontier(nodes[0], s, applied[0], n) && IsMixedFrontier(nodes[1], s, applied[1], 1)
    ensures n > lookback + 1 ==> !MixedWithin(nodes, applied, s, lookback)
  {
  }
}
