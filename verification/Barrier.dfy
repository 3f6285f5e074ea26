/** The startup visibility barrier of three nodes that poll each other's health, crash, and come back
    with new identities. */
module Barrier {

  datatype Phase = WaitingUnready | WaitingVisible | Passed

  /** The health response of an incarnation. */
  datatype Reply = Reply(uuid: nat, verified: set<nat>, ready: bool)

  /** One incarnation of a node. `got` holds the responses of the current round by slot, `seen` the
      incarnation last polled at each slot, `named` the ones it passed the barrier with. */
  datatype Node = Node(slot: nat, phase: Phase, ready: bool, verified: set<nat>,
                       got: map<nat, Reply>, seen: map<nat, nat>, named: map<nat, nat>)

  /** Incarnations are numbered in the order they start; dead ones keep their last state. */
  datatype State = State(nodes: map<nat, Node>, current: map<nat, nat>, next: nat)

  // ----- decision logic --------------------------------------------------------------------------------

  /** The identities a node expects everybody to list: its own and its peers'. */
  function ExpectedUuids(me: nat, got: map<nat, Reply>): (r: set<nat>) {
    {me} + set p | p in got :: got[p].uuid
  }

  function MissingVisibility(expected: set<nat>, peer: nat, verified: set<nat>): (r: set<nat>) {
    set u | u in expected && u != peer && u !in verified
  }

  predicate VisibilityComplete(me: nat, got: map<nat, Reply>) {
    forall p :: p in got ==> MissingVisibility(ExpectedUuids(me, got), got[p].uuid, got[p].verified) == {}
  }

  /** Every peer is unready, or ready and has verified us. */
  predicate OthersUnready(me: nat, got: map<nat, Reply>) {
    forall p :: p in got ==> !got[p].ready || me in got[p].verified
  }

  /** A round is over when both peers have answered and their identities are recorded. */
  predicate RoundOver(n: Node) {
    && (forall p :: 0 <= p < 3 && p != n.slot ==> p in n.got)
    && (forall p :: p in n.got ==> n.got[p].uuid in n.verified)
  }

  // ----- steps -------------------------------------------------------------------------------------------

  datatype Step =
    | Start(slot: nat)
    | Crash(slot: nat)
    | Poll(slot: nat, peer: nat)
    | Insert(slot: nat, peer: nat)
    | Check(slot: nat)
    | SetReady(slot: nat)

  predicate Alive(s: State, slot: nat) {
    slot in s.current && s.current[slot] in s.nodes
  }

  function At(s: State, slot: nat): (n: Node)
    requires Alive(s, slot)
  {
    s.nodes[s.current[slot]]
  }

  function With(s: State, slot: nat, n: Node): (t: State)
    requires Alive(s, slot)
  {
    s.(nodes := s.nodes[s.current[slot] := n])
  }

  predicate Enabled(s: State, step: Step) {
    match step
    case Start(slot) => slot < 3 && slot !in s.current
    case Crash(slot) => Alive(s, slot)
    case Poll(slot, peer) =>
      Alive(s, slot) && Alive(s, peer) && slot != peer && At(s, slot).phase != Passed && peer !in At(s, slot).got
    case Insert(slot, peer) => Alive(s, slot) && At(s, slot).phase != Passed && peer in At(s, slot).got
    case Check(slot) => Alive(s, slot) && At(s, slot).phase != Passed && RoundOver(At(s, slot))
    case SetReady(slot) => Alive(s, slot) && At(s, slot).phase == Passed
  }

  function Apply(s: State, step: Step): (t: State)
    requires Enabled(s, step)
  {
    match step
    case Start(slot) =>
      State(s.nodes[s.next := Node(slot, WaitingUnready, false, {}, map[], map[], map[])], s.current[slot := s.next],
            s.next + 1)
    case Crash(slot) => s.(current := s.current - {slot})
    case Poll(slot, peer) =>
      var n, m := At(s, slot), At(s, peer);
      var v := s.current[peer];
      With(s, slot, n.(got := n.got[peer := Reply(v, m.verified, m.ready)], seen := n.seen[peer := v]))
    case Insert(slot, peer) =>
      var n := At(s, slot);
      With(s, slot, n.(verified := n.verified + {n.got[peer].uuid}))
    case Check(slot) => With(s, slot, AfterCheck(s.current[slot], At(s, slot)))
    case SetReady(slot) => With(s, slot, At(s, slot).(ready := true))
  }

  /** Pass on to the next phase, or forget the responses and poll again. */
  function AfterCheck(me: nat, n: Node): (r: Node)
    requires n.phase != Passed
  {
    if n.phase == WaitingUnready then
      n.(phase := if OthersUnready(me, n.got) then WaitingVisible else WaitingUnready, got := map[])
    else if VisibilityComplete(me, n.got) then
      n.(phase := Passed, named := map p | p in n.got :: n.got[p].uuid, got := map[])
    else
      n.(got := map[])
  }

  const INITIAL: State := State(map[], map[], 0)

  /** The steps lead from s to t. */
  ghost predicate Continues(s: State, steps: seq<Step>, t: State)
    decreases |steps|
  {
    if steps == [] then s == t
    else Enabled(s, steps[0]) && Continues(Apply(s, steps[0]), steps[1..], t)
  }

  ghost predicate Run(trace: seq<Step>, t: State) {
    Continues(INITIAL, trace, t)
  }

  // ----- the invariant --------------------------------------------------------------------------------------

  /** u is an incarnation of slot p. */
  predicate Incarnation(s: State, u: nat, p: nat) {
    u in s.nodes && s.nodes[u].slot == p
  }

  /** The incarnation running at a slot is the slot's newest one. */
  ghost predicate NewestRuns(s: State) {
    && (forall u :: u in s.nodes ==> u < s.next && s.nodes[u].slot < 3)
    && (forall p :: p in s.current ==> Incarnation(s, s.current[p], p))
    && (forall p, u :: p in s.current && Incarnation(s, u, p) ==> u <= s.current[p])
  }

  /** Polls and recorded responses are about incarnations of the polled slot. */
  ghost predicate Tracked(s: State, n: Node) {
    && (forall p :: p in n.seen ==> p != n.slot && Incarnation(s, n.seen[p], p))
    && (forall p :: p in n.got ==>
          p in n.seen && n.got[p].uuid == n.seen[p] && n.got[p].verified <= s.nodes[n.seen[p]].verified)
  }

  /** Nothing newer than the last poll of a slot is ever listed. */
  ghost predicate ListsOnlyPolled(s: State, n: Node) {
    forall w :: w in n.verified ==> w in s.nodes && s.nodes[w].slot in n.seen && w <= n.seen[s.nodes[w].slot]
  }

  /** What an incarnation that passed the barrier knows. */
  ghost predicate PassedKnowing(s: State, u: nat, n: Node) {
    n.phase == Passed ==>
      && n.named == n.seen && n.named.Keys == Others(n.slot)
      && (forall p :: p in n.named ==>
            n.named[p] in n.verified && Incarnation(s, n.named[p], p) && u in s.nodes[n.named[p]].verified)
      && (forall p, q :: p in n.named && q in n.named && p != q ==> n.named[q] in s.nodes[n.named[p]].verified)
  }

  function Others(slot: nat): (r: set<nat>) {
    {0, 1, 2} - {slot}
  }

  ghost predicate NodeOk(s: State, u: nat)
    requires u in s.nodes
  {
    Tracked(s, s.nodes[u]) && ListsOnlyPolled(s, s.nodes[u]) && PassedKnowing(s, u, s.nodes[u])
  }

  ghost predicate Inv(s: State) {
    NewestRuns(s) && AllOk(s)
  }

  // ----- preservation ---------------------------------------------------------------------------------------------

  /** The rest of the world only grows: incarnations stay, their lists grow. */
  ghost predicate Grows(s: State, t: State) {
    forall u :: u in s.nodes ==>
      u in t.nodes && t.nodes[u].slot == s.nodes[u].slot && s.nodes[u].verified <= t.nodes[u].verified
  }

  lemma StableNode(s: State, t: State, u: nat)
    requires Grows(s, t) && u in s.nodes && NodeOk(s, u) && t.nodes[u] == s.nodes[u]
    ensures NodeOk(t, u)
  {
    var n := s.nodes[u];
    assert Tracked(t, n);
    assert ListsOnlyPolled(t, n);
    assert PassedKnowing(t, u, n);
  }

  ghost predicate AllOk(s: State) {
    forall u {:trigger NodeOk(s, u)} :: u in s.nodes ==> NodeOk(s, u)
  }

  /** All incarnations but one are as before. */
  ghost predicate OthersSame(s: State, t: State, me: nat) {
    forall u :: u in t.nodes && u != me ==> u in s.nodes && t.nodes[u] == s.nodes[u]
  }

  lemma OthersOk(s: State, t: State, me: nat)
    requires AllOk(s) && Grows(s, t) && OthersSame(s, t, me) && (me in t.nodes ==> NodeOk(t, me))
    ensures AllOk(t)
  {
    forall u | u in t.nodes
      ensures NodeOk(t, u)
    {
      if u != me {
        StableNode(s, t, u);
      }
    }
  }

  lemma NewestStays(s: State, t: State)
    requires NewestRuns(s) && t.nodes.Keys == s.nodes.Keys && t.current == s.current && t.next == s.next
    requires forall u :: u in s.nodes ==> t.nodes[u].slot == s.nodes[u].slot
    ensures NewestRuns(t)
  {
    assert forall u, p :: Incarnation(t, u, p) <==> Incarnation(s, u, p);
  }

  /** A step of one node keeps the others' parts of the invariant. */
  lemma OneNodeStep(s: State, slot: nat, n: Node)
    requires Inv(s) && Alive(s, slot) && n.slot == slot && At(s, slot).verified <= n.verified
    requires var t := With(s, slot, n); Tracked(t, n) && ListsOnlyPolled(t, n) && PassedKnowing(t, s.current[slot], n)
    ensures Inv(With(s, slot, n))
  {
    var t, me := With(s, slot, n), s.current[slot];
    assert Incarnation(s, me, slot);
    assert t.nodes.Keys == s.nodes.Keys;
    NewestStays(s, t);
    assert Grows(s, t);
    assert NodeOk(t, me);
    assert AllOk(s);
    OthersOk(s, t, me);
  }

  lemma NewestStarts(s: State, slot: nat)
    requires NewestRuns(s) && Enabled(s, Start(slot))
    ensures NewestRuns(Apply(s, Start(slot)))
  {
    var t := Apply(s, Start(slot));
    assert s.next !in s.nodes;
    assert forall u, p :: Incarnation(t, u, p) <==> Incarnation(s, u, p) || (u == s.next && p == slot);
  }

  lemma StartKeeps(s: State, slot: nat)
    requires Inv(s) && Enabled(s, Start(slot))
    ensures Inv(Apply(s, Start(slot)))
  {
    var t := Apply(s, Start(slot));
    assert s.next !in s.nodes;
    NewestStarts(s, slot);
    assert Grows(s, t);
    assert NodeOk(t, s.next);
    assert AllOk(s);
    OthersOk(s, t, s.next);
  }

  lemma NewestCrashes(s: State, slot: nat)
    requires NewestRuns(s) && Enabled(s, Crash(slot))
    ensures NewestRuns(Apply(s, Crash(slot)))
  {
    var t := Apply(s, Crash(slot));
    assert forall u, p :: Incarnation(t, u, p) <==> Incarnation(s, u, p);
  }

  lemma CrashKeeps(s: State, slot: nat)
    requires Inv(s) && Enabled(s, Crash(slot))
    ensures Inv(Apply(s, Crash(slot)))
  {
    var t := Apply(s, Crash(slot));
    NewestCrashes(s, slot);
    assert AllOk(s) && s.next !in s.nodes;
    OthersOk(s, t, s.next);
  }

  lemma PollKeeps(s: State, slot: nat, peer: nat)
    requires Inv(s) && Enabled(s, Poll(slot, peer))
    ensures Inv(Apply(s, Poll(slot, peer)))
  {
    var t, me, v := Apply(s, Poll(slot, peer)), s.current[slot], s.current[peer];
    var n := s.nodes[me];
    var n' := t.nodes[me];
    assert NodeOk(s, me) && Incarnation(s, me, slot) && Incarnation(s, v, peer);
    assert me != v;
    forall w | w in n'.verified
      ensures w in t.nodes && t.nodes[w].slot in n'.seen && w <= n'.seen[t.nodes[w].slot]
    {
      if s.nodes[w].slot == peer {
        assert Incarnation(s, w, peer);
      }
    }
    OneNodeStep(s, slot, n');
  }

  lemma InsertKeeps(s: State, slot: nat, peer: nat)
    requires Inv(s) && Enabled(s, Insert(slot, peer))
    ensures Inv(Apply(s, Insert(slot, peer)))
  {
    var t, me := Apply(s, Insert(slot, peer)), s.current[slot];
    assert NodeOk(s, me) && Incarnation(s, me, slot);
    assert Grows(s, t);
    InsertLists(s, t, s.nodes[me], t.nodes[me], peer);
    OneNodeStep(s, slot, t.nodes[me]);
  }

  /** What is inserted was polled. */
  lemma InsertLists(s: State, t: State, n: Node, n': Node, peer: nat)
    requires Grows(s, t) && Tracked(s, n) && ListsOnlyPolled(s, n) && peer in n.got
    requires n' == n.(verified := n.verified + {n.got[peer].uuid})
    ensures Tracked(t, n') && ListsOnlyPolled(t, n')
  {
    assert Incarnation(s, n.seen[peer], peer);
  }

  lemma ReadyKeeps(s: State, slot: nat)
    requires Inv(s) && Enabled(s, SetReady(slot))
    ensures Inv(Apply(s, SetReady(slot)))
  {
    var t, me := Apply(s, SetReady(slot)), s.current[slot];
    assert NodeOk(s, me) && Incarnation(s, me, slot);
    assert Grows(s, t);
    assert PassedKnowing(s, me, s.nodes[me]);
    OneNodeStep(s, slot, t.nodes[me]);
  }

  lemma RoundCovers(s: State, n: Node)
    requires Inv(s) && n.slot < 3 && Tracked(s, n) && RoundOver(n)
    ensures n.got.Keys == n.seen.Keys == Others(n.slot)
  {
    forall p | p in n.seen
      ensures p in Others(n.slot)
    {
      assert Incarnation(s, n.seen[p], p);
    }
  }

  /** A complete round shows everybody listing everybody. */
  lemma CompleteRound(s: State, me: nat, n: Node, p: nat)
    requires Inv(s) && me in s.nodes && n == s.nodes[me] && VisibilityComplete(me, n.got) && p in n.got
    ensures n.got[p].uuid in s.nodes
    ensures me in s.nodes[n.got[p].uuid].verified
    ensures forall q :: q in n.got && q != p ==> n.got[q].uuid in s.nodes[n.got[p].uuid].verified
  {
    assert NodeOk(s, me);
    var expected := ExpectedUuids(me, n.got);
    assert Incarnation(s, n.seen[p], p) && p != n.slot;
    assert MissingVisibility(expected, n.got[p].uuid, n.got[p].verified) == {};
    assert forall u :: u in expected && u != n.got[p].uuid ==> u in n.got[p].verified by {
      forall u | u in expected && u != n.got[p].uuid
        ensures u in n.got[p].verified
      {
        assert u !in MissingVisibility(expected, n.got[p].uuid, n.got[p].verified);
      }
    }
    forall q | q in n.got && q != p
      ensures n.got[q].uuid in s.nodes[n.got[p].uuid].verified
    {
      assert Incarnation(s, n.seen[q], q);
    }
  }

  lemma CheckEffects(me: nat, n: Node)
    requires n.phase != Passed
    ensures var n' := AfterCheck(me, n);
      && n'.slot == n.slot && n'.seen == n.seen && n'.verified == n.verified && n'.got == map[]
      && (n'.phase == Passed ==> VisibilityComplete(me, n.got) && n'.named == Uuids(n.got))
  {
  }

  function Uuids(got: map<nat, Reply>): (r: map<nat, nat>) {
    map p | p in got :: got[p].uuid
  }

  lemma CheckKeeps(s: State, slot: nat)
    requires Inv(s) && Enabled(s, Check(slot))
    ensures Inv(Apply(s, Check(slot)))
  {
    var me := s.current[slot];
    var n := s.nodes[me];
    var n' := AfterCheck(me, n);
    CheckEffects(me, n);
    CheckedStep(s, slot, n, n');
  }

  lemma CheckedStep(s: State, slot: nat, n: Node, n': Node)
    requires Inv(s) && Alive(s, slot) && n == At(s, slot) && RoundOver(n)
    requires n'.slot == n.slot && n'.seen == n.seen && n'.verified == n.verified && n'.got == map[]
    requires n'.phase == Passed ==> VisibilityComplete(s.current[slot], n.got) && n'.named == Uuids(n.got)
    ensures Inv(With(s, slot, n'))
  {
    var me := s.current[slot];
    assert NodeOk(s, me) && Incarnation(s, me, slot);
    var t := With(s, slot, n');
    assert Grows(s, t);
    CheckedTracks(s, t, n, n');
    if n'.phase == Passed {
      PassingKnows(s, slot, n, n');
      KnowledgeStays(s, t, me, n');
    }
    OneNodeStep(s, slot, n');
  }

  lemma KnowledgeStays(s: State, t: State, u: nat, n: Node)
    requires Grows(s, t) && PassedKnowing(s, u, n)
    ensures PassedKnowing(t, u, n)
  {
  }

  lemma CheckedTracks(s: State, t: State, n: Node, n': Node)
    requires Grows(s, t) && Tracked(s, n) && ListsOnlyPolled(s, n)
    requires n'.slot == n.slot && n'.seen == n.seen && n'.verified == n.verified && n'.got == map[]
    ensures Tracked(t, n') && ListsOnlyPolled(t, n')
  {
  }

  lemma PassingKnows(s: State, slot: nat, n: Node, n': Node)
    requires Inv(s) && Alive(s, slot) && n == At(s, slot) && RoundOver(n) && VisibilityComplete(s.current[slot], n.got)
    requires n'.slot == n.slot && n'.seen == n.seen && n'.verified == n.verified && n'.named == Uuids(n.got)
    ensures PassedKnowing(s, s.current[slot], n')
  {
    var me := s.current[slot];
    assert NodeOk(s, me) && Incarnation(s, me, slot);
    RoundCovers(s, n);
    NamedIsSeen(s, n);
    forall p | p in n.got
      ensures NamedKnows(s, me, n, p)
    {
      OneNamedKnows(s, me, n, p);
    }
    NamesKnow(s, me, n, n');
  }

  lemma NamedIsSeen(s: State, n: Node)
    requires Tracked(s, n) && n.got.Keys == n.seen.Keys
    ensures Uuids(n.got) == n.seen
  {
  }

  lemma OneNamedKnows(s: State, me: nat, n: Node, p: nat)
    requires Inv(s) && me in s.nodes && n == s.nodes[me] && RoundOver(n) && VisibilityComplete(me, n.got) && p in n.got
    ensures NamedKnows(s, me, n, p)
  {
    assert NodeOk(s, me);
    assert Incarnation(s, n.seen[p], p);
    CompleteRound(s, me, n, p);
  }

  /** The incarnation named at p is listed, and lists us and the other one named. */
  ghost predicate NamedKnows(s: State, me: nat, n: Node, p: nat)
    requires p in n.got
  {
    var u := n.got[p].uuid;
    && u in n.verified && Incarnation(s, u, p) && me in s.nodes[u].verified
    && forall q :: q in n.got && p != q ==> n.got[q].uuid in s.nodes[u].verified
  }

  lemma NamesKnow(s: State, me: nat, n: Node, n': Node)
    requires n'.named == n'.seen == Uuids(n.got) && n'.named.Keys == Others(n'.slot) && n'.verified == n.verified
    requires forall p :: p in n.got ==> NamedKnows(s, me, n, p)
    ensures PassedKnowing(s, me, n')
  {
  }

  lemma StepKeeps(s: State, step: Step)
    requires Inv(s) && Enabled(s, step)
    ensures Inv(Apply(s, step))
  {
    match step
    case Start(slot) => StartKeeps(s, slot);
    case Crash(slot) => CrashKeeps(s, slot);
    case Poll(slot, peer) => PollKeeps(s, slot, peer);
    case Insert(slot, peer) => InsertKeeps(s, slot, peer);
    case Check(slot) => CheckKeeps(s, slot);
    case SetReady(slot) => ReadyKeeps(s, slot);
  }

  lemma {:induction false} ContinuesKeeps(s: State, steps: seq<Step>, t: State)
    requires Inv(s) && Continues(s, steps, t)
    ensures Inv(t)
    decreases |steps|
  {
    if steps != [] {
      StepKeeps(s, steps[0]);
      ContinuesKeeps(Apply(s, steps[0]), steps[1..], t);
    }
  }

  /** The invariant holds in every reachable state. */
  lemma Reachable(trace: seq<Step>, t: State)
    requires Run(trace, t)
    ensures Inv(t)
  {
    ContinuesKeeps(INITIAL, trace, t);
  }

  // ----- the main results ------------------------------------------------------------------------

  /** Two incarnations that passed and name each other name the same third one. */
  lemma SameThird(trace: seq<Step>, t: State, x: nat, y: nat, a: nat, b: nat, c: nat)
    requires Run(trace, t) && x in t.nodes && y in t.nodes && a < 3 && b < 3 && c < 3 && a != b && a != c && b != c
    requires t.nodes[x].phase == Passed && t.nodes[y].phase == Passed && t.nodes[x].slot == a && t.nodes[y].slot == b
    requires b in t.nodes[x].named && t.nodes[x].named[b] == y && a in t.nodes[y].named && t.nodes[y].named[a] == x
    ensures c in t.nodes[x].named && c in t.nodes[y].named && t.nodes[x].named[c] == t.nodes[y].named[c]
  {
    Reachable(trace, t);
    assert NodeOk(t, x) && NodeOk(t, y);
    ThirdListed(t, x, y, a, b, c);
    ThirdListed(t, y, x, b, a, c);
  }

  /** What y named at slot c was listed by x, so x had polled it before settling on its own choice. */
  lemma ThirdListed(t: State, x: nat, y: nat, a: nat, b: nat, c: nat)
    requires Inv(t) && x in t.nodes && y in t.nodes && a < 3 && b < 3 && c < 3 && a != b && a != c && b != c
    requires t.nodes[x].phase == Passed && t.nodes[y].phase == Passed && t.nodes[x].slot == a && t.nodes[y].slot == b
    requires a in t.nodes[y].named && t.nodes[y].named[a] == x
    ensures c in t.nodes[x].named && c in t.nodes[y].named && t.nodes[y].named[c] <= t.nodes[x].named[c]
  {
    assert NodeOk(t, x) && NodeOk(t, y);
    KnowsBoth(t, y, t.nodes[y], a, c);
    var z := t.nodes[y].named[c];
    assert Incarnation(t, z, c);
    ListedBefore(t, t.nodes[x], z, c);
  }

  lemma ListedBefore(t: State, n: Node, z: nat, c: nat)
    requires ListsOnlyPolled(t, n) && z in n.verified && Incarnation(t, z, c)
    ensures c in n.seen && z <= n.seen[c]
  {
  }

  /** From the moment an incarnation has passed, it and the two it named list each other; lists only
      grow, so this holds as long as they live. */
  lemma MutualVisibility(trace: seq<Step>, t: State, x: nat, p: nat, q: nat)
    requires Run(trace, t) && x in t.nodes && t.nodes[x].phase == Passed
    requires p < 3 && q < 3 && p != q && p != t.nodes[x].slot && q != t.nodes[x].slot
    ensures p in t.nodes[x].named && q in t.nodes[x].named
    ensures var y, z := t.nodes[x].named[p], t.nodes[x].named[q];
      && y in t.nodes && z in t.nodes
      && y in t.nodes[x].verified && z in t.nodes[x].verified
      && x in t.nodes[y].verified && z in t.nodes[y].verified
      && x in t.nodes[z].verified && y in t.nodes[z].verified
  {
    Reachable(trace, t);
    assert NodeOk(t, x);
    KnowsBoth(t, x, t.nodes[x], p, q);
  }

  lemma KnowsBoth(t: State, x: nat, n: Node, p: nat, q: nat)
    requires PassedKnowing(t, x, n) && n.phase == Passed && p < 3 && q < 3 && p != q && p != n.slot && q != n.slot
    ensures p in n.named && q in n.named
    ensures var y, z := n.named[p], n.named[q];
      && y in t.nodes && z in t.nodes && y in n.verified && z in n.verified
      && x in t.nodes[y].verified && z in t.nodes[y].verified && x in t.nodes[z].verified && y in t.nodes[z].verified
  {
    assert p in Others(n.slot) && q in Others(n.slot);
  }

  // ----- from a state onwards --------------------------------------------------------------------

  /** List, names and phase of an incarnation are the same in both states. */
  ghost predicate Frozen(s: State, t: State, u: nat)
    requires u in s.nodes
  {
    && u in t.nodes && t.nodes[u].verified == s.nodes[u].verified
    && t.nodes[u].named == s.nodes[u].named && t.nodes[u].phase == s.nodes[u].phase
  }

  lemma StepFreezes(s: State, step: Step, u: nat)
    requires Inv(s) && Enabled(s, step) && u in s.nodes && s.nodes[u].phase == Passed
    ensures Frozen(s, Apply(s, step), u)
  {
    assert u < s.next;
  }

  /** Once passed, whatever happens afterwards, an incarnation's list and the names it passed with stay as
      they are. */
  lemma {:induction false} ListsFreeze(s: State, steps: seq<Step>, t: State, u: nat)
    requires Inv(s) && Continues(s, steps, t) && u in s.nodes && s.nodes[u].phase == Passed
    ensures Frozen(s, t, u)
    decreases |steps|
  {
    if steps != [] {
      StepKeeps(s, steps[0]);
      StepFreezes(s, steps[0], u);
      ListsFreeze(Apply(s, steps[0]), steps[1..], t, u);
    }
  }

  function Rank(p: Phase): (r: nat) {
    if p == WaitingUnready then 0 else if p == WaitingVisible then 1 else 2
  }

  /** An incarnation goes through its phases in order, never forgets what it lists, and stays ready. */
  ghost predicate Advances(s: State, t: State, u: nat)
    requires u in s.nodes
  {
    && u in t.nodes && t.nodes[u].slot == s.nodes[u].slot && s.nodes[u].verified <= t.nodes[u].verified
    && Rank(s.nodes[u].phase) <= Rank(t.nodes[u].phase) && (s.nodes[u].ready ==> t.nodes[u].ready)
  }

  lemma StepAdvances(s: State, step: Step, u: nat)
    requires Inv(s) && Enabled(s, step) && u in s.nodes
    ensures Advances(s, Apply(s, step), u)
    ensures Rank(Apply(s, step).nodes[u].phase) <= Rank(s.nodes[u].phase) + 1
  {
    assert u < s.next;
  }

  lemma {:induction false} PhasesAdvance(s: State, steps: seq<Step>, t: State, u: nat)
    requires Inv(s) && Continues(s, steps, t) && u in s.nodes
    ensures Advances(s, t, u)
    decreases |steps|
  {
    if steps != [] {
      StepKeeps(s, steps[0]);
      StepAdvances(s, steps[0], u);
      PhasesAdvance(Apply(s, steps[0]), steps[1..], t, u);
    }
  }

  ghost predicate ReadyOnlyPassed(s: State) {
    forall u :: u in s.nodes && s.nodes[u].ready ==> s.nodes[u].phase == Passed
  }

  lemma ReadyStep(s: State, step: Step)
    requires ReadyOnlyPassed(s) && Enabled(s, step)
    ensures ReadyOnlyPassed(Apply(s, step))
  {
  }

  lemma {:induction false} ReadyContinues(s: State, steps: seq<Step>, t: State)
    requires ReadyOnlyPassed(s) && Continues(s, steps, t)
    ensures ReadyOnlyPassed(t)
    decreases |steps|
  {
    if steps != [] {
      ReadyStep(s, steps[0]);
      ReadyContinues(Apply(s, steps[0]), steps[1..], t);
    }
  }

  /** Whoever says it is ready has passed, and so is listed by the two it named. */
  lemma ReadyHavePassed(trace: seq<Step>, t: State, u: nat)
    requires Run(trace, t) && u in t.nodes && t.nodes[u].ready
    ensures t.nodes[u].phase == Passed && t.nodes[u].named.Keys == Others(t.nodes[u].slot)
    ensures forall p :: p in t.nodes[u].named ==>
      t.nodes[u].named[p] in t.nodes && u in t.nodes[t.nodes[u].named[p]].verified
  {
    ReadyContinues(INITIAL, trace, t);
    Reachable(trace, t);
    assert NodeOk(t, u);
  }
}
