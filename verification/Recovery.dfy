/** Reconciling the parties' modification records after a crash. */
module Recovery {

  datatype Option<T> = None | Some(value: T)

  const IN_PROGRESS: string := "IN_PROGRESS"
  const COMPLETED: string := "COMPLETED"

  datatype Modification = Modification(id: int, serial: Option<int>, request: string, input: Option<string>,
                                       status: string, persisted: bool)

  datatype Outcome<T> = Planned(plan: T) | Refused

  /** The records a node has, or those of all nodes together. */
  type Records = set<Modification>

  // ----- what the snapshots say about an id ---------------------------------------------------------

  ghost predicate Holds(s: Records, id: int) {
    exists m :: m in s && m.id == id
  }

  ghost predicate AnyCompleted(s: Records, id: int) {
    exists m :: m in s && m.id == id && m.status == COMPLETED
  }

  ghost predicate AnyPersisted(s: Records, id: int) {
    exists m :: m in s && m.id == id && m.persisted
  }

  ghost predicate HasSerial(s: Records, id: int, serial: int) {
    exists m :: m in s && m.id == id && m.serial == Some(serial)
  }

  /** The serial id the copies of a modification agree on. */
  ghost predicate IsSerial(s: Records, id: int, serial: Option<int>) {
    match serial
    case Some(x) => HasSerial(s, id, x)
    case None => forall m :: m in s && m.id == id ==> m.serial == None
  }

  ghost predicate Compatible(m: Modification, n: Modification) {
    && m.request == n.request && m.input == n.input
    && (m.serial.Some? && n.serial.Some? ==> m.serial == n.serial)
  }

  predicate KnownStatus(m: Modification) {
    m.status == IN_PROGRESS || m.status == COMPLETED
  }

  /** What the consistency check demands of all copies: one of the two states, and no contradiction. */
  ghost predicate Consistent(s: Records) {
    && (forall m :: m in s ==> m.status == "IN_PROGRESS" || m.status == "COMPLETED")
    && (forall m, n :: m in s && n in s && m.id == n.id ==> Compatible(m, n))
  }

  ghost predicate ConsistentAt(s: Records, id: int) {
    && (forall m :: m in s && m.id == id ==> m.status == "IN_PROGRESS" || m.status == "COMPLETED")
    && (forall m, n :: m in s && n in s && m.id == id && n.id == id ==> Compatible(m, n))
  }

  /** m is a copy of n, up to the persisted flag and a serial id that may be missing. */
  ghost predicate LessCertain(m: Modification, n: Modification) {
    && m.id == n.id && m.request == n.request && m.input == n.input && m.status == n.status
    && (m.serial == n.serial || m.serial == None)
  }

  /** Every record comes from one of the other snapshots' records. */
  ghost predicate ComesFrom(t: Records, s: Records) {
    forall m :: m in t ==> exists n :: n in s && LessCertain(m, n)
  }

  /** Neither a persisted flag nor a missing serial id ever makes recovery refuse: whatever flags are set or
      cleared and whatever serial ids and copies are left out, accepted snapshots stay accepted. */
  lemma FlagsNeverRefuse(t: Records, s: Records)
    requires Consistent(s) && ComesFrom(t, s)
    ensures Consistent(t)
  {
    forall m, n | m in t && n in t && m.id == n.id
      ensures Compatible(m, n)
    {
      var m' :| m' in s && LessCertain(m, m');
      var n' :| n' in s && LessCertain(n, n');
      assert Compatible(m', n');
    }
  }

  /** Snapshots in which every id has one request and one input and no serial id yet are accepted, whatever
      else they say; a further status, request, input or serial id is the only way to be refused. */
  lemma FreshSnapshotsAccepted(s: Records, request: int -> string, input: int -> Option<string>)
    requires forall m :: m in s ==> m.request == request(m.id) && m.input == input(m.id) && m.serial == None
    ensures Consistent(s) <==> forall m :: m in s ==> m.status == "IN_PROGRESS" || m.status == "COMPLETED"
  {
  }

  lemma SerialUnique(s: Records, id: int, x: Option<int>, y: Option<int>)
    requires ConsistentAt(s, id) && IsSerial(s, id, x) && IsSerial(s, id, y)
    ensures x == y
  {
    if x.Some? && y.Some? {
      var m :| m in s && m.id == id && m.serial == x;
      var n :| n in s && n.id == id && n.serial == y;
      assert Compatible(m, n);
    }
  }

  // ----- one group of copies --------------------------------------------------------------------------

  /** The copies of one id, in the order they were read. */
  datatype Group = Group(id: int, mods: seq<Modification>)

  ghost function Elements(mods: seq<Modification>): (s: Records)
    ensures forall m :: m in s <==> m in mods
  {
    set m | m in mods
  }

  method CheckConsistency(group: Group) returns (ok: bool)
    requires group.mods != [] && forall m :: m in group.mods ==> m.id == group.id
    ensures ok <==> ConsistentAt(Elements(group.mods), group.id)
  {
    var mods := group.mods;
    var first := mods[0];
    var serial: Option<int> := None;
    for i := 0 to |mods|
      invariant forall j :: 0 <= j < i ==> Passes(mods[j], first, serial)
      invariant serial.Some? ==> exists j :: 0 <= j < i && mods[j].serial == serial
    {
      var m := mods[i];
      if first.request != m.request || first.input != m.input || !KnownStatus(m) {
        FailsWith(mods, i, group.id);
        return false;
      }
      if m.serial.Some? {
        if serial.Some? && serial != m.serial {
          var j :| 0 <= j < i && mods[j].serial == serial;
          assert !Compatible(mods[j], m);
          return false;
        }
        serial := m.serial;
      }
    }
    PassesAll(mods, first, serial, group.id);
    return true;
  }

  predicate Passes(m: Modification, first: Modification, serial: Option<int>) {
    m.request == first.request && m.input == first.input && KnownStatus(m) && (m.serial.Some? ==> m.serial == serial)
  }

  lemma FailsWith(mods: seq<Modification>, i: nat, id: int)
    requires i < |mods| && forall m :: m in mods ==> m.id == id
    requires mods[0].request != mods[i].request || mods[0].input != mods[i].input || !KnownStatus(mods[i])
    ensures !ConsistentAt(Elements(mods), id)
  {
    assert mods[0] in mods && mods[i] in mods;
    if KnownStatus(mods[i]) {
      assert !Compatible(mods[0], mods[i]);
    }
  }

  lemma PassesAll(mods: seq<Modification>, first: Modification, serial: Option<int>, id: int)
    requires forall j :: 0 <= j < |mods| ==> Passes(mods[j], first, serial)
    ensures ConsistentAt(Elements(mods), id)
  {
  }

  /** The first serial id found among the copies. */
  function FirstSerial(mods: seq<Modification>): (r: Option<int>) {
    if mods == [] then None else if mods[0].serial.Some? then mods[0].serial else FirstSerial(mods[1..])
  }

  lemma {:induction false} FirstSerialFound(mods: seq<Modification>)
    ensures match FirstSerial(mods)
            case Some(x) => exists m :: m in mods && m.serial == Some(x)
            case None => forall m :: m in mods ==> m.serial == None
  {
    if mods != [] {
      FirstSerialFound(mods[1..]);
      if mods[0].serial.Some? {
        assert mods[0] in mods;
      } else {
        assert forall m :: m in mods <==> m == mods[0] || m in mods[1..];
      }
    }
  }

  /** A completed copy, preferably one that carries the serial id. */
  method FirstCompleted(mods: seq<Modification>, serial: Option<int>) returns (r: Modification)
    requires exists m :: m in mods && m.status == COMPLETED
    ensures r in mods && r.status == COMPLETED
  {
    var fallback: Option<Modification> := None;
    for i := 0 to |mods|
      invariant fallback.Some? ==> fallback.value in mods && fallback.value.status == COMPLETED
      invariant fallback.None? ==> forall j :: 0 <= j < i ==> mods[j].status != COMPLETED
    {
      if mods[i].status == COMPLETED {
        if mods[i].serial == serial {
          return mods[i];
        }
        if fallback.None? {
          fallback := Some(mods[i]);
        }
      }
    }
    return fallback.value;
  }

  // ----- grouping ---------------------------------------------------------------------------------------

  ghost predicate InGroups(gs: seq<Group>, m: Modification) {
    exists i :: 0 <= i < |gs| && m in gs[i].mods
  }

  /** Groups in strictly ascending order of ids, each holding copies of its own id only. */
  ghost predicate Grouped(gs: seq<Group>) {
    && (forall i, j :: 0 <= i < j < |gs| ==> gs[i].id < gs[j].id)
    && (forall i :: 0 <= i < |gs| ==> OwnGroup(gs[i]))
  }

  ghost predicate OwnGroup(g: Group) {
    g.mods != [] && forall m :: m in g.mods ==> m.id == g.id
  }

  method AddTo(gs: seq<Group>, m: Modification) returns (r: seq<Group>)
    requires Grouped(gs)
    ensures Grouped(r) && forall x :: InGroups(r, x) <==> InGroups(gs, x) || x == m
  {
    var i := 0;
    while i < |gs| && gs[i].id < m.id
      invariant 0 <= i <= |gs| && forall j :: 0 <= j < i ==> gs[j].id < m.id
    {
      i := i + 1;
    }
    if i < |gs| && gs[i].id == m.id {
      r := gs[i := Group(m.id, gs[i].mods + [m])];
      Appended(gs, i, m, r);
    } else {
      r := gs[..i] + [Group(m.id, [m])] + gs[i..];
      Inserted(gs, i, m, r);
    }
  }

  lemma Appended(gs: seq<Group>, i: nat, m: Modification, r: seq<Group>)
    requires Grouped(gs) && i < |gs| && gs[i].id == m.id && r == gs[i := Group(m.id, gs[i].mods + [m])]
    ensures Grouped(r) && forall x :: InGroups(r, x) <==> InGroups(gs, x) || x == m
  {
    forall x
      ensures InGroups(r, x) <==> InGroups(gs, x) || x == m
    {
      if InGroups(gs, x) {
        var j :| 0 <= j < |gs| && x in gs[j].mods;
        assert x in r[j].mods;
      }
      assert m in r[i].mods;
    }
  }

  ghost predicate IsInserted(r: seq<Group>, gs: seq<Group>, i: nat, g: Group) {
    && i <= |gs| && |r| == |gs| + 1 && r[i] == g
    && (forall j :: 0 <= j < i ==> r[j] == gs[j])
    && (forall j :: i <= j < |gs| ==> gs[j] == r[j + 1])
  }

  lemma InsertedOrder(gs: seq<Group>, i: nat, g: Group, r: seq<Group>)
    requires Grouped(gs) && IsInserted(r, gs, i, g) && OwnGroup(g)
    requires (forall j :: 0 <= j < i ==> gs[j].id < g.id) && (forall j :: i <= j < |gs| ==> gs[j].id > g.id)
    ensures Grouped(r)
  {
    forall j | i < j < |r|
      ensures r[j] == gs[j - 1]
    {
      assert gs[j - 1] == r[j - 1 + 1];
    }
  }

  lemma InsertedMembers(gs: seq<Group>, i: nat, m: Modification, r: seq<Group>, x: Modification)
    requires IsInserted(r, gs, i, Group(m.id, [m]))
    ensures InGroups(r, x) <==> InGroups(gs, x) || x == m
  {
    if InGroups(gs, x) {
      var j :| 0 <= j < |gs| && x in gs[j].mods;
      if j >= i {
        assert gs[j] == r[j + 1];
      }
      assert x in r[if j < i then j else j + 1].mods;
    }
    assert m in r[i].mods;
    if InGroups(r, x) {
      var j :| 0 <= j < |r| && x in r[j].mods;
      if j > i {
        assert gs[j - 1] == r[j - 1 + 1];
      }
    }
  }

  lemma Inserted(gs: seq<Group>, i: nat, m: Modification, r: seq<Group>)
    requires Grouped(gs) && i <= |gs| && (forall j :: 0 <= j < i ==> gs[j].id < m.id) && (i < |gs| ==> gs[i].id > m.id)
    requires r == gs[..i] + [Group(m.id, [m])] + gs[i..]
    ensures Grouped(r) && forall x :: InGroups(r, x) <==> InGroups(gs, x) || x == m
  {
    var g := Group(m.id, [m]);
    assert IsInserted(r, gs, i, g);
    InsertedOrder(gs, i, g, r);
    forall x
      ensures InGroups(r, x) <==> InGroups(gs, x) || x == m
    {
      InsertedMembers(gs, i, m, r, x);
    }
  }

  /** All records of all snapshots. */
  ghost function Union(all: seq<seq<Modification>>): (s: Records)
    ensures forall m :: m in s <==> exists p :: 0 <= p < |all| && m in all[p]
  {
    if all == [] then {}
    else
      var n := |all| - 1;
      var r := Union(all[..n]) + Elements(all[n]);
      assert forall p :: 0 <= p < n ==> all[..n][p] == all[p];
      r
  }

  method GroupAll(all: seq<seq<Modification>>) returns (gs: seq<Group>)
    ensures Grouped(gs) && forall m :: InGroups(gs, m) <==> m in Union(all)
  {
    gs := [];
    for p := 0 to |all|
      invariant Grouped(gs) && forall m :: InGroups(gs, m) <==> exists q :: 0 <= q < p && m in all[q]
    {
      ghost var before := gs;
      for i := 0 to |all[p]|
        invariant Grouped(gs) && forall m :: InGroups(gs, m) <==> InGroups(before, m) || m in all[p][..i]
      {
        gs := AddTo(gs, all[p][i]);
        assert all[p][..i + 1] == all[p][..i] + [all[p][i]];
      }
      assert all[p][..|all[p]|] == all[p];
    }
  }

  /** A group holds exactly the copies of its id. */
  lemma GroupIsExact(gs: seq<Group>, s: Records, i: nat, m: Modification)
    requires Grouped(gs) && i < |gs| && forall x :: InGroups(gs, x) <==> x in s
    ensures m in gs[i].mods <==> m in s && m.id == gs[i].id
  {
    assert OwnGroup(gs[i]);
    assert m in gs[i].mods ==> InGroups(gs, m);
    if m in s && m.id == gs[i].id {
      assert InGroups(gs, m);
      var j :| 0 <= j < |gs| && m in gs[j].mods;
      assert OwnGroup(gs[j]);
    }
  }

  lemma GroupAgrees(gs: seq<Group>, s: Records, i: nat)
    requires Grouped(gs) && i < |gs| && forall x :: InGroups(gs, x) <==> x in s
    ensures var e, id := Elements(gs[i].mods), gs[i].id;
      && Holds(s, id) && (ConsistentAt(e, id) <==> ConsistentAt(s, id))
      && (AnyCompleted(e, id) <==> AnyCompleted(s, id))
      && (AnyPersisted(e, id) <==> AnyPersisted(s, id)) && (forall x :: IsSerial(e, id, x) <==> IsSerial(s, id, x))
  {
    forall m
      ensures m in gs[i].mods <==> m in s && m.id == gs[i].id
    {
      GroupIsExact(gs, s, i, m);
    }
    assert OwnGroup(gs[i]);
    assert gs[i].mods[0] in gs[i].mods;
    assert forall m :: m in Elements(gs[i].mods) <==> m in s && m.id == gs[i].id;
  }

  lemma GroupsCover(gs: seq<Group>, s: Records, id: int)
    requires Grouped(gs) && forall x :: InGroups(gs, x) <==> x in s
    ensures Holds(s, id) <==> exists i :: 0 <= i < |gs| && gs[i].id == id
  {
    if Holds(s, id) {
      var m :| m in s && m.id == id;
      assert InGroups(gs, m);
      var i :| 0 <= i < |gs| && m in gs[i].mods;
      assert OwnGroup(gs[i]);
    }
    if i :| 0 <= i < |gs| && gs[i].id == id {
      GroupAgrees(gs, s, i);
    }
  }
}
