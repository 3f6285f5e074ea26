/** Passing the startup barrier: once one node is through the others follow, and there is a run in which
    all three get through. */
module BarrierRuns {
  import opened Barrier

  // ----- the others follow ----------------------------------------------------------------------------

  /** Both run, and p lists q. */
  predicate Lists(s: State, p: nat, q: nat) {
    Alive(s, p) && Alive(s, q) && s.current[q] in At(s, p).verified
  }

  /** All three nodes run and each lists the two others. */
  ghost predicate AllVisible(s: State) {
    forall p, q :: 0 <= p < 3 && 0 <= q < 3 && p != q ==> Lists(s, p, q)
  }

  /** The response is from the incarnation running at p and lists everybody else. */
  ghost predicate FreshReply(s: State, r: Reply, p: nat) {
    && p in s.current && r.uuid == s.current[p]
    && forall q :: 0 <= q < 3 && q != p ==> q in s.current && s.current[q] in r.verified
  }

  ghost predicate FreshRound(s: State, slot: nat) {
    && slot < 3 && Alive(s, slot)
    && forall p :: p in At(s, slot).got ==> p < 3 && p != slot && FreshReply(s, At(s, slot).got[p], p)
  }

  predicate NobodyCrashes(steps: seq<Step>) {
    forall i :: 0 <= i < |steps| ==> !steps[i].Crash?
  }

  lemma VisibleAlive(s: State, p: nat)
    requires AllVisible(s) && p < 3
    ensures Alive(s, p)
  {
    var q := if p == 0 then 1 else 0;
    assert Lists(s, p, q);
  }

  lemma DifferentNodes(s: State, p: nat, q: nat)
    requires Inv(s) && Alive(s, p) && Alive(s, q) && p != q
    ensures s.current[p] != s.current[q]
  {
    assert Incarnation(s, s.current[p], p) && Incarnation(s, s.current[q], q);
  }

  lemma NobodyStarts(s: State, step: Step)
    requires AllVisible(s) && Enabled(s, step)
    ensures !step.Start?
  {
    if step.Start? {
      VisibleAlive(s, step.slot);
    }
  }

  /** A running node's list grows with every step. */
  lemma ListGrows(s: State, step: Step, p: nat)
    requires Inv(s) && Alive(s, p) && Enabled(s, step) && !step.Crash? && !step.Start?
    ensures Apply(s, step).current == s.current && Alive(Apply(s, step), p)
    ensures At(s, p).verified <= At(Apply(s, step), p).verified
  {
    if step.slot != p {
      DifferentNodes(s, p, step.slot);
    }
  }

  lemma StillLists(s: State, step: Step, p: nat, q: nat)
    requires Inv(s) && Lists(s, p, q) && Enabled(s, step) && !step.Crash? && !step.Start?
    ensures Lists(Apply(s, step), p, q)
  {
    ListGrows(s, step, p);
    ListGrows(s, step, q);
  }

  lemma StillVisible(s: State, step: Step)
    requires Inv(s) && AllVisible(s) && Enabled(s, step) && !step.Crash?
    ensures AllVisible(Apply(s, step))
  {
    NobodyStarts(s, step);
    forall p, q | 0 <= p < 3 && 0 <= q < 3 && p != q
      ensures Lists(Apply(s, step), p, q)
    {
      StillLists(s, step, p, q);
    }
  }

  /** Apart from a new response, what is in the round was there before. */
  lemma GotBefore(s: State, step: Step, slot: nat, p: nat)
    requires Inv(s) && Alive(s, slot) && Enabled(s, step) && !step.Crash? && !step.Start? && step != Poll(slot, p)
    requires Alive(Apply(s, step), slot) && p in At(Apply(s, step), slot).got
    ensures p in At(s, slot).got && At(Apply(s, step), slot).got[p] == At(s, slot).got[p]
  {
    if step.slot != slot {
      DifferentNodes(s, slot, step.slot);
    }
  }

  lemma PollIsFresh(s: State, slot: nat, p: nat)
    requires Inv(s) && AllVisible(s) && slot < 3 && Enabled(s, Poll(slot, p))
    ensures p < 3 && FreshReply(s, Reply(s.current[p], At(s, p).verified, At(s, p).ready), p)
  {
    assert Incarnation(s, s.current[p], p);
    forall q | 0 <= q < 3 && q != p
      ensures q in s.current && s.current[q] in At(s, p).verified
    {
      assert Lists(s, p, q);
    }
  }

  lemma StillFresh(s: State, step: Step, slot: nat)
    requires Inv(s) && AllVisible(s) && FreshRound(s, slot) && Enabled(s, step) && !step.Crash?
    ensures FreshRound(Apply(s, step), slot)
  {
    var t := Apply(s, step);
    NobodyStarts(s, step);
    ListGrows(s, step, slot);
    forall p | p in At(t, slot).got
      ensures p < 3 && p != slot && FreshReply(t, At(t, slot).got[p], p)
    {
      if step == Poll(slot, p) {
        PollIsFresh(s, slot, p);
      } else {
        GotBefore(s, step, slot, p);
        assert FreshReply(s, At(s, slot).got[p], p);
      }
    }
  }

  lemma {:induction false} StaysFresh(s: State, steps: seq<Step>, t: State, slot: nat)
    requires Inv(s) && AllVisible(s) && FreshRound(s, slot) && NobodyCrashes(steps) && Continues(s, steps, t)
    ensures FreshRound(t, slot)
    decreases |steps|
  {
    if steps != [] {
      StepKeeps(s, steps[0]);
      StillVisible(s, steps[0]);
      StillFresh(s, steps[0], slot);
      StaysFresh(Apply(s, steps[0]), steps[1..], t, slot);
    }
  }

  lemma FreshListsMe(s: State, slot: nat, p: nat)
    requires FreshRound(s, slot) && p in At(s, slot).got
    ensures s.current[slot] in At(s, slot).got[p].verified
  {
    assert FreshReply(s, At(s, slot).got[p], p);
  }

  lemma FreshMissesNothing(s: State, slot: nat, p: nat)
    requires FreshRound(s, slot) && p in At(s, slot).got
    ensures var me, got := s.current[slot], At(s, slot).got;
      MissingVisibility(ExpectedUuids(me, got), got[p].uuid, got[p].verified) == {}
  {
    var me, got := s.current[slot], At(s, slot).got;
    FreshListsMe(s, slot, p);
    forall u | u in ExpectedUuids(me, got) && u != got[p].uuid
      ensures u in got[p].verified
    {
      if u != me {
        var q :| q in got && got[q].uuid == u;
        assert FreshReply(s, got[q], q) && FreshReply(s, got[p], p);
      }
    }
  }

  /** A round of fresh responses passes both kinds of check. */
  lemma FreshPasses(s: State, slot: nat)
    requires FreshRound(s, slot)
    ensures OthersUnready(s.current[slot], At(s, slot).got) && VisibilityComplete(s.current[slot], At(s, slot).got)
  {
    forall p | p in At(s, slot).got
      ensures s.current[slot] in At(s, slot).got[p].verified
    {
      FreshListsMe(s, slot, p);
    }
    forall p | p in At(s, slot).got
      ensures var me, got := s.current[slot], At(s, slot).got;
        MissingVisibility(ExpectedUuids(me, got), got[p].uuid, got[p].verified) == {}
    {
      FreshMissesNothing(s, slot, p);
    }
  }

  function NextPhase(p: Phase): (r: Phase) {
    if p == WaitingUnready then WaitingVisible else Passed
  }

  /** The incarnation running at a has passed, and those it named still run. */
  ghost predicate PassedWithAll(s: State, a: nat) {
    && a < 3 && Alive(s, a) && At(s, a).phase == Passed
    && forall p :: p in At(s, a).named ==> p in s.current && s.current[p] == At(s, a).named[p]
  }

  /** Once one node is through and those it named still run, then as long as nobody crashes every round the others
      begin ends in a check that lets them on. */
  lemma OthersFollow(trace: seq<Step>, s: State, a: nat, steps: seq<Step>, t: State, slot: nat)
    requires Run(trace, s) && PassedWithAll(s, a) && slot < 3 && Alive(s, slot) && At(s, slot).got == map[]
    requires NobodyCrashes(steps) && Continues(s, steps, t) && Enabled(t, Check(slot))
    ensures var t' := Apply(t, Check(slot)); Alive(t', slot) && At(t', slot).phase == NextPhase(At(t, slot).phase)
  {
    Reachable(trace, s);
    PassedIsVisible(trace, s, a);
    StaysFresh(s, steps, t, slot);
    FreshPasses(t, slot);
  }

  lemma PassedIsVisible(trace: seq<Step>, s: State, a: nat)
    requires Run(trace, s) && Inv(s) && PassedWithAll(s, a)
    ensures AllVisible(s)
  {
    var b, c := if a == 0 then 1 else 0, if a == 2 then 1 else 2;
    var x := s.current[a];
    assert Incarnation(s, x, a);
    MutualVisibility(trace, s, x, b, c);
    assert s.current[b] == s.nodes[x].named[b] && s.current[c] == s.nodes[x].named[c];
    assert Lists(s, a, b) && Lists(s, a, c) && Lists(s, b, a) && Lists(s, b, c) && Lists(s, c, a) && Lists(s, c, b);
    forall p, q | 0 <= p < 3 && 0 <= q < 3 && p != q
      ensures Lists(s, p, q)
    {
      assert p == a || p == b || p == c;
      assert q == a || q == b || q == c;
    }
  }

  // ----- a run in which all three pass -----------------------------------------------------------

  lemma OneStep(s: State, step: Step, steps: seq<Step>, t: State)
    requires Enabled(s, step) && Continues(Apply(s, step), steps, t)
    ensures Continues(s, [step] + steps, t)
  {
    assert ([step] + steps)[1..] == steps;
  }

  /** Node i polls both peers, lists them and checks. */
  function Round(i: nat, j: nat, k: nat): (steps: seq<Step>) {
    [Poll(i, j)] + ([Poll(i, k)] + ([Insert(i, j)] + ([Insert(i, k)] + ([Check(i)] + []))))
  }

  /** Incarnation i of slot i at the start, after the first round, after the second, and once it is ready. */
  function Fresh(i: nat): (n: Node) {
    Node(i, WaitingUnready, false, {}, map[], map[], map[])
  }

  function Seen(i: nat): (r: map<nat, nat>) {
    map p | p in Others(i) :: p
  }

  function Waiting(i: nat): (n: Node) {
    Node(i, WaitingVisible, false, Others(i), map[], Seen(i), map[])
  }

  function Passing(i: nat): (n: Node) {
    Node(i, Passed, false, Others(i), map[], Seen(i), Seen(i))
  }

  function Through(i: nat): (n: Node) {
    Node(i, Passed, true, Others(i), map[], Seen(i), Seen(i))
  }

  /** Incarnation p runs at slot p. */
  const SLOTS: map<nat, nat> := map p: nat | p in {0, 1, 2} :: p

  /** Node p when the nodes below m have been through their first round, or through their second one and got ready. */
  function NodeAt(p: nat, m: nat, second: bool): (n: Node) {
    if second then (if p < m then Through(p) else Waiting(p)) else if p < m then Waiting(p) else Fresh(p)
  }

  function Stage(m: nat, second: bool): (s: State) {
    State(map p: nat | p in {0, 1, 2} :: NodeAt(p, m, second), SLOTS, 3)
  }

  predicate Trial(s: State, i: nat, j: nat, k: nat) {
    && s.current == SLOTS && s.nodes.Keys == {0, 1, 2} && i < 3 && j < 3 && k < 3 && i != j && i != k && j != k
    && s.nodes[i].slot == i && s.nodes[i].phase != Passed
  }

  /** The state with another node i. */
  function Now(s: State, i: nat, n: Node): (t: State) {
    s.(nodes := s.nodes[i := n])
  }

  function ReplyOf(s: State, j: nat): (r: Reply)
    requires j in s.nodes
  {
    Reply(j, s.nodes[j].verified, s.nodes[j].ready)
  }

  function Polled(n: Node, j: nat, r: Reply): (m: Node) {
    n.(got := n.got[j := r], seen := n.seen[j := j])
  }

  function Listed(n: Node, j: nat): (m: Node) {
    n.(verified := n.verified + {j})
  }

  lemma PollRuns(s: State, i: nat, j: nat, k: nat)
    requires Trial(s, i, j, k) && j !in s.nodes[i].got
    ensures Enabled(s, Poll(i, j)) && Apply(s, Poll(i, j)) == Now(s, i, Polled(s.nodes[i], j, ReplyOf(s, j)))
  {
  }

  lemma InsertRuns(s: State, i: nat, j: nat, k: nat)
    requires Trial(s, i, j, k) && j in s.nodes[i].got && s.nodes[i].got[j].uuid == j
    ensures Enabled(s, Insert(i, j)) && Apply(s, Insert(i, j)) == Now(s, i, Listed(s.nodes[i], j))
  {
  }

  lemma CheckRuns(s: State, i: nat, j: nat, k: nat)
    requires Trial(s, i, j, k) && s.nodes[i].got.Keys == {j, k} && s.nodes[i].got[j].uuid == j
    requires s.nodes[i].got[k].uuid == k
    requires j in s.nodes[i].verified && k in s.nodes[i].verified
    ensures Enabled(s, Check(i)) && Apply(s, Check(i)) == Now(s, i, AfterCheck(i, s.nodes[i]))
  {
    forall p | 0 <= p < 3 && p != i
      ensures p in s.nodes[i].got
    {
      assert p == j || p == k;
    }
  }

  /** The node just before its check. */
  function Checking(s: State, i: nat, j: nat, k: nat): (n: Node)
    requires i in s.nodes && j in s.nodes && k in s.nodes
  {
    Listed(Listed(Polled(Polled(s.nodes[i], j, ReplyOf(s, j)), k, ReplyOf(s, k)), j), k)
  }

  lemma NowAgain(s: State, i: nat, n: Node, m: Node)
    ensures Now(Now(s, i, n), i, m) == Now(s, i, m)
  {
    assert s.nodes[i := n][i := m] == s.nodes[i := m];
  }

  lemma {:induction false} TwoPolls(s: State, i: nat, j: nat, k: nat, rest: seq<Step>, t: State)
    requires Trial(s, i, j, k) && s.nodes[i].got == map[]
    requires Continues(Now(s, i, Polled(Polled(s.nodes[i], j, ReplyOf(s, j)), k, ReplyOf(s, k))), rest, t)
    ensures Continues(s, [Poll(i, j)] + ([Poll(i, k)] + rest), t)
  {
    var n1 := Polled(s.nodes[i], j, ReplyOf(s, j));
    var s1 := Now(s, i, n1);
    var n2 := Polled(n1, k, ReplyOf(s, k));
    PollRuns(s, i, j, k);
    assert s1.nodes.Keys == s.nodes.Keys;
    PollRuns(s1, i, k, j);
    NowAgain(s, i, n1, n2);
    OneStep(s1, Poll(i, k), rest, t);
    OneStep(s, Poll(i, j), [Poll(i, k)] + rest, t);
  }

  lemma {:induction false} TwoInserts(s: State, i: nat, j: nat, k: nat, rest: seq<Step>, t: State)
    requires Trial(s, i, j, k) && j in s.nodes[i].got && s.nodes[i].got[j].uuid == j
    requires k in s.nodes[i].got && s.nodes[i].got[k].uuid == k
    requires Continues(Now(s, i, Listed(Listed(s.nodes[i], j), k)), rest, t)
    ensures Continues(s, [Insert(i, j)] + ([Insert(i, k)] + rest), t)
  {
    var n1 := Listed(s.nodes[i], j);
    var s1 := Now(s, i, n1);
    InsertRuns(s, i, j, k);
    assert s1.nodes.Keys == s.nodes.Keys;
    InsertRuns(s1, i, k, j);
    NowAgain(s, i, n1, Listed(n1, k));
    OneStep(s1, Insert(i, k), rest, t);
    OneStep(s, Insert(i, j), [Insert(i, k)] + rest, t);
  }

  /** What a whole round makes of the state. */
  function RoundDone(s: State, i: nat, j: nat, k: nat): (t: State)
    requires Trial(s, i, j, k)
  {
    Now(s, i, AfterCheck(i, Checking(s, i, j, k)))
  }

  lemma {:induction false} RoundRuns(s: State, i: nat, j: nat, k: nat)
    requires Trial(s, i, j, k) && s.nodes[i].got == map[]
    ensures Continues(s, Round(i, j, k), RoundDone(s, i, j, k))
  {
    var t := RoundDone(s, i, j, k);
    var n2 := Polled(Polled(s.nodes[i], j, ReplyOf(s, j)), k, ReplyOf(s, k));
    var n4 := Checking(s, i, j, k);
    var s2 := Now(s, i, n2);
    assert s2.nodes.Keys == s.nodes.Keys;
    LastCheck(s, i, j, k, n4);
    NowAgain(s, i, n2, n4);
    TwoInserts(s2, i, j, k, [Check(i)] + [], t);
    TwoPolls(s, i, j, k, [Insert(i, j)] + ([Insert(i, k)] + ([Check(i)] + [])), t);
  }

  lemma LastCheck(s: State, i: nat, j: nat, k: nat, n: Node)
    requires Trial(s, i, j, k) && s.nodes[i].got == map[] && n == Checking(s, i, j, k)
    ensures Continues(Now(s, i, n), [Check(i)] + [], RoundDone(s, i, j, k))
  {
    var s4 := Now(s, i, n);
    assert s4.nodes.Keys == s.nodes.Keys;
    assert n.got.Keys == {j, k};
    CheckRuns(s4, i, j, k);
    NowAgain(s, i, n, AfterCheck(i, n));
    OneStep(s4, Check(i), [], RoundDone(s, i, j, k));
  }

  /** The first round of a node whose peers are not ready. */
  lemma FirstRound(s: State, i: nat, j: nat, k: nat)
    requires Trial(s, i, j, k) && s.nodes[i] == Fresh(i) && !s.nodes[j].ready && !s.nodes[k].ready
    ensures AfterCheck(i, Checking(s, i, j, k)) == Waiting(i)
  {
    var n := Checking(s, i, j, k);
    CheckingFirst(s, i, j, k);
    assert OthersUnready(i, n.got);
  }

  lemma CheckingFirst(s: State, i: nat, j: nat, k: nat)
    requires Trial(s, i, j, k) && s.nodes[i] == Fresh(i)
    ensures var n := Checking(s, i, j, k);
      && n.slot == i && n.phase == WaitingUnready && !n.ready && n.verified == Others(i) && n.seen == Seen(i)
      && n.got == map[j := ReplyOf(s, j), k := ReplyOf(s, k)] && n.named == map[]
  {
    OtherTwo(i, j, k);
  }

  lemma Expected(n: Node, i: nat, j: nat, k: nat)
    requires n.got.Keys == {j, k} && n.got[j].uuid == j && n.got[k].uuid == k
    ensures ExpectedUuids(i, n.got) == {i, j, k}
  {
    var e := ExpectedUuids(i, n.got);
    assert n.got[j].uuid in e && n.got[k].uuid in e;
  }

  lemma MissesNothing(i: nat, j: nat, k: nat)
    requires i < 3 && j < 3 && k < 3 && i != j && i != k && j != k
    ensures MissingVisibility({i, j, k}, j, Others(j)) == {}
  {
  }

  lemma OtherTwo(i: nat, j: nat, k: nat)
    requires i < 3 && j < 3 && k < 3 && i != j && i != k && j != k
    ensures Others(i) == {j, k} && Seen(i) == map[j := j, k := k]
  {
  }

  lemma AllListed(n: Node, i: nat, j: nat, k: nat)
    requires i < 3 && j < 3 && k < 3 && i != j && i != k && j != k
    requires n.got.Keys == {j, k} && n.got[j].uuid == j && n.got[k].uuid == k
    requires n.got[j].verified == Others(j) && n.got[k].verified == Others(k)
    ensures VisibilityComplete(i, n.got) && Uuids(n.got) == Seen(i)
  {
    Expected(n, i, j, k);
    ListedAs(n, i, j, k);
    assert VisibilityComplete(i, n.got) by {
      MissesNothing(i, j, k);
      MissesNothing(i, k, j);
      assert {i, k, j} == {i, j, k};
    }
  }

  lemma ListedAs(n: Node, i: nat, j: nat, k: nat)
    requires i < 3 && j < 3 && k < 3 && i != j && i != k && j != k
    requires n.got.Keys == {j, k} && n.got[j].uuid == j && n.got[k].uuid == k
    ensures Uuids(n.got) == Seen(i)
  {
    OtherTwo(i, j, k);
    var u, v := Uuids(n.got), Seen(i);
    assert u.Keys == {j, k} == v.Keys;
    assert u[j] == v[j] && u[k] == v[k];
  }

  lemma CheckingAgain(s: State, i: nat, j: nat, k: nat)
    requires Trial(s, i, j, k) && s.nodes[i] == Waiting(i)
    ensures var n := Checking(s, i, j, k);
      && n.slot == i && n.phase == WaitingVisible && !n.ready && n.verified == Others(i) && n.seen == Seen(i)
      && n.got == map[j := ReplyOf(s, j), k := ReplyOf(s, k)] && n.named == map[]
  {
    OtherTwo(i, j, k);
  }

  /** The second round of a node whose peers list everybody. */
  lemma SecondRound(s: State, i: nat, j: nat, k: nat)
    requires Trial(s, i, j, k) && s.nodes[i] == Waiting(i)
    requires s.nodes[j].verified == Others(j) && s.nodes[k].verified == Others(k)
    ensures AfterCheck(i, Checking(s, i, j, k)) == Passing(i)
  {
    var n := Checking(s, i, j, k);
    CheckingAgain(s, i, j, k);
    assert n.got.Keys == {j, k};
    AllListed(n, i, j, k);
  }

  lemma {:induction false} ContinuesAppend(s: State, x: seq<Step>, t: State, y: seq<Step>, u: State)
    requires Continues(s, x, t) && Continues(t, y, u)
    ensures Continues(s, x + y, u)
    decreases |x|
  {
    if x == [] {
      assert x + y == y;
    } else {
      ContinuesAppend(Apply(s, x[0]), x[1..], t, y, u);
      assert (x + y)[1..] == x[1..] + y;
    }
  }

  lemma StartRuns(s: State, slot: nat, n: Node)
    requires slot < 3 && slot !in s.current && n == Fresh(slot)
    ensures Enabled(s, Start(slot))
    ensures Apply(s, Start(slot)) == State(s.nodes[s.next := n], s.current[slot := s.next], s.next + 1)
  {
  }

  lemma Starts() returns (steps: seq<Step>)
    ensures Continues(INITIAL, steps, Stage(0, false))
  {
    var s1 := State(map[0 := Fresh(0)], map[0 := 0], 1);
    var s2 := State(map[0 := Fresh(0), 1 := Fresh(1)], map[0 := 0, 1 := 1], 2);
    var s3 := Stage(0, false);
    assert s3.nodes == s2.nodes[2 := Fresh(2)] && s3.current == s2.current[2 := 2];
    StartRuns(INITIAL, 0, Fresh(0));
    StartRuns(s1, 1, Fresh(1));
    StartRuns(s2, 2, Fresh(2));
    steps := ThreeSteps(INITIAL, Start(0), s1, Start(1), s2, Start(2), s3);
  }

  lemma ThreeSteps(s: State, x: Step, t: State, y: Step, u: State, z: Step, v: State) returns (steps: seq<Step>)
    requires Enabled(s, x) && t == Apply(s, x) && Enabled(t, y) && u == Apply(t, y) && Enabled(u, z) && v == Apply(u, z)
    ensures Continues(s, steps, v)
  {
    OneStep(u, z, [], v);
    OneStep(t, y, [z] + [], v);
    OneStep(s, x, [y] + ([z] + []), v);
    steps := [x] + ([y] + ([z] + []));
  }

  lemma NextStage(i: nat, second: bool)
    requires i < 3
    ensures Now(Stage(i, second), i, NodeAt(i, i + 1, second)) == Stage(i + 1, second)
  {
    var s, t := Stage(i, second), Stage(i + 1, second);
    assert s.nodes[i := NodeAt(i, i + 1, second)] == t.nodes;
  }

  lemma FirstStage(i: nat, j: nat, k: nat)
    requires i < 3 && j < 3 && k < 3 && i != j && i != k && j != k
    ensures Continues(Stage(i, false), Round(i, j, k), Stage(i + 1, false))
  {
    var s := Stage(i, false);
    assert s.nodes.Keys == {0, 1, 2} && s.nodes[i] == NodeAt(i, i, false);
    RoundRuns(s, i, j, k);
    FirstRound(s, i, j, k);
    NextStage(i, false);
  }

  lemma ReadyRuns(s: State, i: nat)
    requires s.current == SLOTS && s.nodes.Keys == {0, 1, 2} && i < 3 && s.nodes[i] == Passing(i)
    ensures Continues(s, [SetReady(i)], Now(s, i, Through(i)))
  {
    assert Enabled(s, SetReady(i)) && Apply(s, SetReady(i)) == Now(s, i, Through(i));
    OneStep(s, SetReady(i), [], Now(s, i, Through(i)));
    assert [SetReady(i)] + [] == [SetReady(i)];
  }

  /** A second round, with earlier nodes already ready. */
  lemma PassingStage(i: nat, j: nat, k: nat, s: State, mid: State)
    requires i < 3 && j < 3 && k < 3 && i != j && i != k && j != k
    requires s == Stage(i, true) && mid == Now(s, i, Passing(i))
    ensures Continues(s, Round(i, j, k), mid)
  {
    assert s.nodes.Keys == {0, 1, 2} && s.nodes[i] == NodeAt(i, i, true);
    RoundRuns(s, i, j, k);
    SecondRound(s, i, j, k);
  }

  /** Getting ready straight after it. */
  lemma ReadyStage(i: nat, s: State, mid: State)
    requires i < 3 && s == Stage(i, true) && mid == Now(s, i, Passing(i))
    ensures Continues(mid, [SetReady(i)], Stage(i + 1, true))
  {
    assert mid.nodes.Keys == {0, 1, 2};
    ReadyRuns(mid, i);
    NowAgain(s, i, Passing(i), Through(i));
    NextStage(i, true);
  }

  lemma SecondStage(i: nat, j: nat, k: nat) returns (steps: seq<Step>)
    requires i < 3 && j < 3 && k < 3 && i != j && i != k && j != k
    ensures Continues(Stage(i, true), steps, Stage(i + 1, true))
  {
    var s := Stage(i, true);
    var mid := Now(s, i, Passing(i));
    PassingStage(i, j, k, s, mid);
    ReadyStage(i, s, mid);
    steps := JoinRuns(s, Round(i, j, k), mid, [SetReady(i)], Stage(i + 1, true));
  }

  lemma StageRuns(i: nat, j: nat, k: nat, second: bool) returns (steps: seq<Step>)
    requires i < 3 && j < 3 && k < 3 && i != j && i != k && j != k
    ensures Continues(Stage(i, second), steps, Stage(i + 1, second))
  {
    if second {
      steps := SecondStage(i, j, k);
    } else {
      FirstStage(i, j, k);
      steps := Round(i, j, k);
    }
  }

  lemma JoinRuns(s: State, x: seq<Step>, t: State, y: seq<Step>, u: State) returns (steps: seq<Step>)
    requires Continues(s, x, t) && Continues(t, y, u)
    ensures Continues(s, steps, u)
  {
    ContinuesAppend(s, x, t, y, u);
    steps := x + y;
  }

  /** The nodes below m do a round, one after the other. */
  lemma {:induction false} RoundsRun(m: nat, second: bool) returns (steps: seq<Step>)
    requires m <= 3
    ensures Continues(Stage(0, second), steps, Stage(m, second))
  {
    if m == 0 {
      steps := [];
    } else {
      var i := m - 1;
      var before := RoundsRun(i, second);
      var j, k := if i == 0 then 1 else 0, if i == 2 then 1 else 2;
      var round := StageRuns(i, j, k, second);
      steps := JoinRuns(Stage(0, second), before, Stage(i, second), round, Stage(m, second));
    }
  }

  lemma NextRounds(m: nat)
    requires m >= 3
    ensures Stage(m, false) == Stage(0, true)
  {
    assert Stage(m, false).nodes == Stage(0, true).nodes;
  }

  /** The barrier can be passed: in some run all three get through, name each other and become ready, each as soon
      as it is through. */
  lemma AllPass() returns (trace: seq<Step>, t: State)
    ensures Run(trace, t) && t == Stage(3, true)
    ensures forall p :: 0 <= p < 3 ==> Alive(t, p) && At(t, p) == Through(p)
  {
    var start := Starts();
    var first := RoundsRun(3, false);
    NextRounds(3);
    var second := RoundsRun(3, true);
    t := Stage(3, true);
    var begun := JoinRuns(INITIAL, start, Stage(0, false), first, Stage(0, true));
    trace := JoinRuns(INITIAL, begun, Stage(0, true), second, t);
    EverybodyThrough(t);
  }

  lemma EverybodyThrough(t: State)
    requires t == Stage(3, true)
    ensures forall p :: 0 <= p < 3 ==> Alive(t, p) && At(t, p) == Through(p)
  {
  }
}
