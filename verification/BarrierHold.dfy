/** The first startup barrier: a node stays behind as long as a peer is ready that has not listed it. */
module BarrierHold {
  import opened Barrier
  import opened BarrierRuns

  /** Incarnation y runs at slot p, has passed, is ready and does not list x, which is still at the first barrier and
      holds no response from p that says otherwise. */
  ghost predicate HeldBack(s: State, x: nat, y: nat, p: nat) {
    && x in s.nodes && p in s.current && s.current[p] == y && y in s.nodes && s.nodes[x].slot != p
    && s.nodes[y].phase == Passed && s.nodes[y].ready && x !in s.nodes[y].verified
    && s.nodes[x].phase == WaitingUnready
    && (p in s.nodes[x].got ==> s.nodes[x].got[p].ready && x !in s.nodes[x].got[p].verified)
  }

  predicate StaysUp(steps: seq<Step>, p: nat) {
    forall i :: 0 <= i < |steps| ==> steps[i] != Crash(p)
  }

  /** A check of the node that is held back. */
  lemma CheckHolds(s: State, x: nat, y: nat, p: nat, slot: nat)
    requires Inv(s) && HeldBack(s, x, y, p) && Enabled(s, Check(slot)) && s.current[slot] == x
    ensures HeldBack(Apply(s, Check(slot)), x, y, p)
  {
    assert Incarnation(s, x, slot) && Incarnation(s, y, p);
    var n := s.nodes[x];
    assert p in n.got && n.got[p].ready && x !in n.got[p].verified;
    assert AfterCheck(x, n).phase == WaitingUnready;
  }

  lemma PollHolds(s: State, x: nat, y: nat, p: nat, slot: nat, peer: nat)
    requires Inv(s) && HeldBack(s, x, y, p) && Enabled(s, Poll(slot, peer)) && s.current[slot] == x
    ensures HeldBack(Apply(s, Poll(slot, peer)), x, y, p)
  {
    assert Incarnation(s, x, slot) && Incarnation(s, y, p);
  }

  /** Steps of other nodes: the peer has passed, so its list does not grow any more. */
  lemma OtherHolds(s: State, x: nat, y: nat, p: nat, step: Step)
    requires Inv(s) && HeldBack(s, x, y, p) && Enabled(s, step) && step != Crash(p)
    requires step.slot !in s.current || s.current[step.slot] != x
    ensures HeldBack(Apply(s, step), x, y, p)
  {
    assert x < s.next && y < s.next;
  }

  lemma StepHolds(s: State, x: nat, y: nat, p: nat, step: Step)
    requires Inv(s) && HeldBack(s, x, y, p) && Enabled(s, step) && step != Crash(p)
    ensures HeldBack(Apply(s, step), x, y, p)
  {
    if step.slot !in s.current || s.current[step.slot] != x {
      OtherHolds(s, x, y, p, step);
    } else {
      assert Incarnation(s, x, step.slot) && Incarnation(s, y, p);
      if step.Check? {
        CheckHolds(s, x, y, p, step.slot);
      } else if step.Poll? {
        PollHolds(s, x, y, p, step.slot, step.peer);
      }
    }
  }

  lemma {:induction false} ContinuesHolds(s: State, x: nat, y: nat, p: nat, steps: seq<Step>, t: State)
    requires Inv(s) && HeldBack(s, x, y, p) && Continues(s, steps, t) && StaysUp(steps, p)
    ensures HeldBack(t, x, y, p)
    decreases |steps|
  {
    if steps != [] {
      StepKeeps(s, steps[0]);
      StepHolds(s, x, y, p, steps[0]);
      ContinuesHolds(Apply(s, steps[0]), x, y, p, steps[1..], t);
    }
  }

  /** Over all runs: if y has passed, is ready and does not list x, then as long as y stays the incarnation at its
      slot, x does not get past the first barrier, whatever else happens. */
  lemma UnlistedStaysBehind(trace: seq<Step>, s: State, x: nat, y: nat, p: nat, steps: seq<Step>, t: State)
    requires Run(trace, s) && x in s.nodes && y in s.nodes && p in s.current && s.current[p] == y
    requires s.nodes[y].phase == Passed && s.nodes[y].ready && x !in s.nodes[y].verified
    requires s.nodes[x].slot != p && s.nodes[x].phase == WaitingUnready && p !in s.nodes[x].got
    requires Continues(s, steps, t) && StaysUp(steps, p)
    ensures x in t.nodes && t.nodes[x].phase == WaitingUnready
  {
    Reachable(trace, s);
    ContinuesHolds(s, x, y, p, steps, t);
  }

  // ----- a restarted node -----------------------------------------------------------------------------------

  /** Node 2 has crashed and come back as incarnation 3 while the others were ready. */
  function Restarted(): (s: State) {
    State(Stage(3, true).nodes[3 := Fresh(2)], map[0 := 0, 1 := 1, 2 := 3], 4)
  }

  lemma CrashAndStart(s: State, slot: nat, t: State)
    requires Alive(s, slot) && slot < 3
    requires t == State(s.nodes[s.next := Fresh(slot)], s.current[slot := s.next], s.next + 1)
    ensures Continues(s, [Crash(slot)] + ([Start(slot)] + []), t)
  {
    var gone := Apply(s, Crash(slot));
    assert gone.current[slot := s.next] == s.current[slot := s.next];
    assert Enabled(gone, Start(slot)) && Apply(gone, Start(slot)) == t;
    OneStep(gone, Start(slot), [], t);
    OneStep(s, Crash(slot), [Start(slot)] + [], t);
  }

  lemma Restart() returns (trace: seq<Step>)
    ensures Run(trace, Restarted())
  {
    var before, s := AllPass();
    RestartedFrom(s);
    CrashAndStart(s, 2, Restarted());
    trace := JoinRuns(INITIAL, before, s, [Crash(2)] + ([Start(2)] + []), Restarted());
  }

  lemma RestartedFrom(s: State)
    requires s == Stage(3, true)
    ensures Alive(s, 2) && Restarted() == State(s.nodes[s.next := Fresh(2)], s.current[2 := s.next], s.next + 1)
  {
    assert SLOTS[2 := 3] == map[0 := 0, 1 := 1, 2 := 3];
  }

  /** All three nodes run and node i starts a round. */
  ghost predicate RoundBegins(s: State, i: nat, j: nat, k: nat) {
    && Inv(s) && Alive(s, i) && Alive(s, j) && Alive(s, k) && i < 3 && j < 3 && k < 3 && i != j && i != k && j != k
    && At(s, i).phase != Passed && At(s, i).got == map[]
  }

  lemma PollPossible(s: State, i: nat, j: nat) returns (t: State)
    requires Inv(s) && Alive(s, i) && Alive(s, j) && i != j && At(s, i).phase != Passed && j !in At(s, i).got
    ensures Enabled(s, Poll(i, j)) && t == Apply(s, Poll(i, j)) && Inv(t) && t.current == s.current
    ensures Alive(t, i) && At(t, i).phase == At(s, i).phase && At(t, i).got.Keys == At(s, i).got.Keys + {j}
    ensures forall q :: Alive(s, q) ==> Alive(t, q)
  {
    t := Apply(s, Poll(i, j));
    StepKeeps(s, Poll(i, j));
  }

  lemma InsertPossible(s: State, i: nat, j: nat) returns (t: State)
    requires Inv(s) && Alive(s, i) && At(s, i).phase != Passed && j in At(s, i).got
    ensures Enabled(s, Insert(i, j)) && t == Apply(s, Insert(i, j)) && Inv(t) && t.current == s.current
    ensures Alive(t, i) && At(t, i).phase == At(s, i).phase && At(t, i).got == At(s, i).got
    ensures At(t, i).verified == At(s, i).verified + {At(s, i).got[j].uuid}
  {
    t := Apply(s, Insert(i, j));
    StepKeeps(s, Insert(i, j));
  }

  lemma PollsPossible(s: State, i: nat, j: nat, k: nat) returns (t: State)
    requires RoundBegins(s, i, j, k)
    ensures Inv(t) && Alive(t, i) && At(t, i).phase != Passed && At(t, i).got.Keys == {j, k}
    ensures forall rest, u :: Continues(t, rest, u) ==> Continues(s, [Poll(i, j)] + ([Poll(i, k)] + rest), u)
  {
    var s1 := PollPossible(s, i, j);
    t := PollPossible(s1, i, k);
    forall rest, u | Continues(t, rest, u)
      ensures Continues(s, [Poll(i, j)] + ([Poll(i, k)] + rest), u)
    {
      OneStep(s1, Poll(i, k), rest, u);
      OneStep(s, Poll(i, j), [Poll(i, k)] + rest, u);
    }
  }

  lemma InsertsPossible(s: State, i: nat, j: nat, k: nat) returns (t: State)
    requires Inv(s) && Alive(s, i) && At(s, i).phase != Passed && At(s, i).got.Keys == {j, k}
    ensures Inv(t) && Alive(t, i) && At(t, i).phase != Passed && At(t, i).got.Keys == {j, k}
    ensures At(t, i).got[j].uuid in At(t, i).verified && At(t, i).got[k].uuid in At(t, i).verified
    ensures forall rest, u :: Continues(t, rest, u) ==> Continues(s, [Insert(i, j)] + ([Insert(i, k)] + rest), u)
  {
    var s1 := InsertPossible(s, i, j);
    t := InsertPossible(s1, i, k);
    forall rest, u | Continues(t, rest, u)
      ensures Continues(s, [Insert(i, j)] + ([Insert(i, k)] + rest), u)
    {
      OneStep(s1, Insert(i, k), rest, u);
      OneStep(s, Insert(i, j), [Insert(i, k)] + rest, u);
    }
  }

  /** While all three run, every node still at a barrier can complete a round. */
  lemma RoundPossible(s: State, i: nat, j: nat, k: nat) returns (t: State)
    requires RoundBegins(s, i, j, k)
    ensures Continues(s, Round(i, j, k), t)
  {
    var s2 := PollsPossible(s, i, j, k);
    var s4 := InsertsPossible(s2, i, j, k);
    RoundIsOver(s4, i, j, k);
    t := Apply(s4, Check(i));
    OneStep(s4, Check(i), [], t);
    var checked := [Check(i)] + [];
    assert Continues(s2, [Insert(i, j)] + ([Insert(i, k)] + checked), t);
  }

  lemma NobodyCrashesInRound(i: nat, j: nat, k: nat, p: nat)
    ensures StaysUp(Round(i, j, k), p)
  {
  }

  lemma RoundIsOver(s: State, i: nat, j: nat, k: nat)
    requires Inv(s) && Alive(s, i) && i < 3 && j < 3 && k < 3 && i != j && i != k && j != k && At(s, i).phase != Passed
    requires At(s, i).got.Keys == {j, k} && At(s, i).got[j].uuid in At(s, i).verified
    requires At(s, i).got[k].uuid in At(s, i).verified
    ensures Enabled(s, Check(i))
  {
    assert Incarnation(s, s.current[i], i);
    forall p | 0 <= p < 3 && p != i
      ensures p in At(s, i).got
    {
      assert p == j || p == k;
    }
  }

  lemma RestartedState(s: State)
    requires s == Restarted()
    ensures s.current == map[0 := 0, 1 := 1, 2 := 3] && s.nodes.Keys == {0, 1, 2, 3}
    ensures s.nodes[0] == Through(0) && s.nodes[1] == Through(1) && s.nodes[3] == Fresh(2)
  {
    EverybodyThrough(Stage(3, true));
    assert Stage(3, true).nodes.Keys == {0, 1, 2};
  }

  /** A node whose peers have passed, are ready and do not list it. */
  ghost predicate Overtaken(s: State, x: nat, slot: nat) {
    && slot in s.current && s.current[slot] == x && x in s.nodes && s.nodes[x].phase == WaitingUnready
    && forall p :: p in Others(slot) ==>
      Alive(s, p) && At(s, p).phase == Passed && At(s, p).ready && x !in At(s, p).verified
  }

  /** An overtaken node can complete a round, and is still at the first barrier afterwards. */
  lemma OvertakenRound(trace: seq<Step>, s: State, x: nat, i: nat, j: nat, k: nat) returns (t: State)
    requires Run(trace, s) && Overtaken(s, x, i) && s.nodes[x].got == map[]
    requires i < 3 && j < 3 && k < 3 && i != j && i != k && j != k
    ensures Continues(s, Round(i, j, k), t) && x in t.nodes && t.nodes[x].phase == WaitingUnready
  {
    Reachable(trace, s);
    assert Incarnation(s, x, i);
    assert j in Others(i) && k in Others(i);
    t := RoundPossible(s, i, j, k);
    NobodyCrashesInRound(i, j, k, j);
    UnlistedStaysBehind(trace, s, x, s.current[j], j, Round(i, j, k), t);
  }

  lemma RestartedOvertaken(s: State)
    requires s == Restarted()
    ensures Overtaken(s, 3, 2) && s.nodes[3].got == map[]
  {
    RestartedState(s);
    assert Others(2) == {0, 1};
  }

  /** Such a node exists: restarted while its peers are ready, it completes a round and is still at the first
      barrier. */
  lemma RestartedStaysBehind() returns (trace: seq<Step>, s: State, t: State)
    ensures Run(trace, s) && Overtaken(s, 3, 2)
    ensures Continues(s, Round(2, 0, 1), t) && 3 in t.nodes && t.nodes[3].phase == WaitingUnready
  {
    trace := Restart();
    s := Restarted();
    RestartedOvertaken(s);
    t := OvertakenRound(trace, s, 3, 2, 0, 1);
  }
}
