/** A session that ran its calls in one order is one of the asynchronous runs, so every other
    interleaving of the same programs leaves every party with the same memory and the same results. */
module Outcomes {
  import opened Rep3
  import opened Sessions
  import opened Interleaving
  import opened Schedules
  import Gates
  import Opening

  /** What party i sends, given everything it has sent and received so far. */
  type Program = (nat, seq<Memory<Message>>) -> Message

  function OrderOf(run: Run): (r: seq<nat>)
    ensures |r| == |run| && forall x :: 0 <= x < |run| ==> r[x] == run[x].i
  {
    seq<nat>(|run|, x requires 0 <= x < |run| => run[x].i)
  }

  function Letters(q: seq<Message>): (r: seq<Letter<Message>>)
    ensures |r| == |q| && forall x :: 0 <= x < |q| ==> r[x] == Letter(Len(q[x]), q[x])
  {
    seq(|q|, x requires 0 <= x < |q| => Letter(Len(q[x]), q[x]))
  }

  function Queues(next: Trio<seq<Message>>, back: Trio<seq<Message>>): (r: seq<seq<Letter<Message>>>) {
    [Letters(next.p0), Letters(next.p1), Letters(next.p2), Letters(back.p0), Letters(back.p1), Letters(back.p2)]
  }

  function Memories(run: Run): (r: seq<seq<Memory<Message>>>) {
    [MemoryOf(run, 0), MemoryOf(run, 1), MemoryOf(run, 2)]
  }

  ghost predicate AllLegal(run: Run) {
    forall x {:trigger LegalAt(run, x)} :: 0 <= x < |run| ==> LegalAt(run, x)
  }

  predicate AllCommunicate(todo: seq<seq<Event>>) {
    |todo| == 3 && Communicates(todo[0]) && Communicates(todo[1]) && Communicates(todo[2])
  }

  /** The events of the run are still to come, and after them those in todo. */
  function Beforehand(run: Run, todo: seq<seq<Event>>): (s: Config<Message>)
    requires |todo| == 3
  {
    Config([[], [], []],
           [EventsOf(MemoryOf(run, 0)) + todo[0], EventsOf(MemoryOf(run, 1)) + todo[1],
            EventsOf(MemoryOf(run, 2)) + todo[2]],
           Queues(Trio([], [], []), Trio([], [], [])))
  }

  /** The run has happened. */
  function Afterwards(run: Run, todo: seq<seq<Event>>): (s: Config<Message>) {
    Config(Memories(run), todo, Queues(NextAt(run, |run|), BackAt(run, |run|)))
  }

  // ----- programs ---------------------------------------------------------------------------------------

  /** Running the program with the memories of this run sends what was sent. */
  ghost predicate Follows(f: Program, run: Run) {
    FollowsOf(f, run, 0) && FollowsOf(f, run, 1) && FollowsOf(f, run, 2)
  }

  ghost predicate FollowsOf(f: Program, run: Run, i: nat) {
    var m := MemoryOf(run, i);
    forall x :: 0 <= x < |m| && m[x].Sent? ==> f(i, m[..x]) == m[x].payload
  }

  lemma FollowsShorter(f: Program, run: Run, s: Step, i: nat)
    requires FollowsOf(f, run + [s], i)
    ensures FollowsOf(f, run, i)
    ensures s.i == i && s.what.Sent? ==> f(i, MemoryOf(run, i)) == s.what.payload
  {
    MemorySnoc(run, s, i);
    var m, m' := MemoryOf(run, i), MemoryOf(run + [s], i);
    assert forall x :: 0 <= x <= |m| ==> m'[..x] == m[..x];
    if s.i == i && s.what.Sent? {
      assert m'[|m|] == s.what && m[..|m|] == m;
    }
  }

  /** There is such a program: the one that repeats what was sent. */
  lemma SomeProgramFollows(run: Run) returns (f: Program)
    ensures Follows(f, run)
  {
    f := (i: nat, m: seq<Memory<Message>>) =>
      if |m| < |MemoryOf(run, i)| then MemoryOf(run, i)[|m|].payload else Elements([]);
  }

  // ----- a recorded run is a run ---------------------------------------------------------------------------

  lemma {:induction false} RunsSnoc<P>(s: Config<P>, order: seq<nat>, t: Config<P>, i: nat,
                                       f: (nat, seq<Memory<P>>) -> P)
    requires Formed(s) && Formed(t) && Runs(s, order, t, f) && i < 3 && Can(t, i)
    ensures Runs(s, order + [i], Do(t, i, f), f)
    decreases |order|
  {
    if order == [] {
      assert ([] + [i])[1..] == [];
    } else {
      RunsSnoc(Do(s, order[0], f), order[1..], t, i, f);
      assert (order + [i])[1..] == order[1..] + [i];
    }
  }

  lemma LegalShorter(run: Run, s: Step)
    requires AllLegal(run + [s])
    ensures AllLegal(run) && s.i < 3 && Moves(s.i, s.what, NextAt(run, |run|), BackAt(run, |run|), s.next, s.back)
  {
    forall x | 0 <= x < |run|
      ensures LegalAt(run, x)
    {
      assert LegalAt(run + [s], x);
    }
    assert LegalAt(run + [s], |run|);
  }

  /** The communication of the last step goes in front of what is still to do. */
  function Pending(todo: seq<seq<Event>>, s: Step): (r: seq<seq<Event>>)
    requires |todo| == 3 && s.i < 3
    ensures |r| == 3
  {
    todo[s.i := [s.what.e] + todo[s.i]]
  }

  lemma BeforeAgain(run: Run, s: Step, todo: seq<seq<Event>>, i: nat)
    requires |todo| == 3 && s.i < 3 && i < 3
    ensures EventsOf(MemoryOf(run + [s], i)) + todo[i] == EventsOf(MemoryOf(run, i)) + Pending(todo, s)[i]
  {
    MemorySnoc(run, s, i);
    if s.i == i {
      EventsSnoc(MemoryOf(run, i), s.what);
    }
  }

  lemma LettersSnoc(q: seq<Message>, m: Message)
    ensures Letters(q + [m]) == Letters(q) + [Letter(Len(m), m)]
  {
  }

  lemma LettersTail(q: seq<Message>)
    requires q != []
    ensures Letters(q[1..]) == Letters(q)[1..]
  {
  }

  /** Letters of the queue a step touches. */
  function QueueOf(i: nat, e: Event, next: Trio<seq<Message>>, back: Trio<seq<Message>>): (q: seq<Message>)
    requires i < 3 && (IsSend(e) || IsReceive(e))
  {
    match e
    case SentNext(_) => next.At(i)
    case SentPrev(_) => back.At(i)
    case GotPrev(_) => next.At(Before(i))
    case GotNext(_) => back.At(After(i))
  }

  lemma QueueAt(i: nat, e: Event, next: Trio<seq<Message>>, back: Trio<seq<Message>>)
    requires i < 3 && (IsSend(e) || IsReceive(e))
    ensures Queues(next, back)[Key(i, e)] == Letters(QueueOf(i, e, next, back))
  {
  }

  /** A legal move changes one queue: it gains the message at the end or loses it at the front. */
  lemma MoveQueues(s: Step, next: Trio<seq<Message>>, back: Trio<seq<Message>>)
    requires s.i < 3 && Moves(s.i, s.what, next, back, s.next, s.back)
    ensures IsSend(s.what.e) || IsReceive(s.what.e)
    ensures var k, q := Key(s.i, s.what.e), Letters(QueueOf(s.i, s.what.e, next, back));
      var x := Letter(Len(s.what.payload), s.what.payload);
      && Queues(next, back)[k] == q && (IsReceive(s.what.e) ==> q != [] && q[0] == x)
      && Queues(s.next, s.back) == Queues(next, back)[k := if IsReceive(s.what.e) then q[1..] else q + [x]]
  {
    var e, m := s.what.e, s.what.payload;
    var q := QueueOf(s.i, e, next, back);
    QueueAt(s.i, e, next, back);
    LettersSnoc(q, m);
    if q != [] {
      LettersTail(q);
    }
    assert s.i == 0 || s.i == 1 || s.i == 2;
  }

  lemma MemoriesSnoc(run: Run, s: Step)
    requires s.i < 3
    ensures Memories(run + [s]) == Memories(run)[s.i := MemoryOf(run, s.i) + [s.what]]
  {
    var now, want := Memories(run + [s]), Memories(run)[s.i := MemoryOf(run, s.i) + [s.what]];
    forall j | 0 <= j < 3
      ensures now[j] == want[j]
    {
      MemoryAt(run, j);
      MemoryAt(run + [s], j);
      MemorySnoc(run, s, j);
    }
    assert now == want;
  }

  lemma MemoryAt(run: Run, j: nat)
    requires j < 3
    ensures Memories(run)[j] == MemoryOf(run, j)
  {
  }

  lemma LastStep(run: Run, s: Step, todo: seq<seq<Event>>, f: Program)
    requires AllLegal(run + [s]) && AllCommunicate(todo) && Follows(f, run + [s])
    ensures s.i < 3 && AllCommunicate(Pending(todo, s))
    ensures var t := Afterwards(run, Pending(todo, s));
      Formed(t) && Can(t, s.i) && Do(t, s.i, f) == Afterwards(run + [s], todo)
  {
    LegalShorter(run, s);
    MoveQueues(s, NextAt(run, |run|), BackAt(run, |run|));
    FollowsShorter(f, run, s, s.i);
    MemoriesSnoc(run, s);
    var t := Afterwards(run, Pending(todo, s));
    assert t.todo[s.i][0] == s.what.e && t.todo[s.i][1..] == todo[s.i];
    assert t.todo[s.i := todo[s.i]] == todo;
    assert Formed(t);
  }

  lemma NothingYet(todo: seq<seq<Event>>, f: Program)
    requires AllCommunicate(todo)
    ensures Formed(Beforehand([], todo)) && Beforehand([], todo) == Afterwards([], todo)
  {
    var b := Beforehand([], todo).todo;
    assert b[0] == todo[0] && b[1] == todo[1] && b[2] == todo[2];
    assert b == todo;
  }

  lemma SameStart(run: Run, s: Step, todo: seq<seq<Event>>)
    requires |todo| == 3 && s.i < 3
    ensures Beforehand(run + [s], todo) == Beforehand(run, Pending(todo, s))
  {
    BeforeAgain(run, s, todo, 0);
    BeforeAgain(run, s, todo, 1);
    BeforeAgain(run, s, todo, 2);
  }

  lemma {:induction false} RecordedIsRun(run: Run, todo: seq<seq<Event>>, f: Program)
    requires AllLegal(run) && AllCommunicate(todo) && Follows(f, run)
    ensures Formed(Beforehand(run, todo)) && Runs(Beforehand(run, todo), OrderOf(run), Afterwards(run, todo), f)
    decreases |run|
  {
    if run == [] {
      NothingYet(todo, f);
    } else {
      var n := |run| - 1;
      var init, s := run[..n], run[n];
      assert run == init + [s];
      LegalShorter(init, s);
      FollowsShorter(f, init, s, 0);
      FollowsShorter(f, init, s, 1);
      FollowsShorter(f, init, s, 2);
      LastStep(init, s, todo, f);
      var rest := Pending(todo, s);
      RecordedIsRun(init, rest, f);
      SameStart(init, s, todo);
      RunsSnoc(Beforehand(init, rest), OrderOf(init), Afterwards(init, rest), s.i, f);
      assert OrderOf(run) == OrderOf(init) + [s.i];
    }
  }

  // ----- the main results ------------------------------------------------------------------------------------

  /** Everybody has returned; the channels are empty. */
  function Outcome(run: Run): (t: Config<Message>) {
    Config(Memories(run), [[], [], []], [[], [], [], [], [], []])
  }

  lemma OutcomeFinished(run: Run)
    ensures Finished(Outcome(run)) && Stuck(Outcome(run))
  {
  }

  lemma QuietEnds(net: Network)
    requires net.Quiet()
    ensures AllLegal(net.run) && Beforehand(net.run, [[], [], []]) == Start<Message>(net.calls, net.sid)
    ensures Afterwards(net.run, [[], [], []]) == Outcome(net.run)
  {
    var b, c := Beforehand(net.run, [[], [], []]), Start<Message>(net.calls, net.sid);
    assert Remembers(net.run, net.log, 0) && Remembers(net.run, net.log, 1) && Remembers(net.run, net.log, 2);
    assert b.todo[0] == c.todo[0] && b.todo[1] == c.todo[1] && b.todo[2] == c.todo[2];
    assert b.todo == c.todo;
  }

  /** Between calls, what has happened is a complete asynchronous run of the calls made so far, with the
      messages that were sent. */
  lemma SessionIsRun(net: Network, f: Program)
    requires net.Quiet() && Follows(f, net.run)
    ensures Runs(Start<Message>(net.calls, net.sid), OrderOf(net.run), Outcome(net.run), f)
  {
    QuietEnds(net);
    RecordedIsRun(net.run, [[], [], []], f);
  }

  /** So every other interleaving can be continued to the same outcome and does not stop before. */
  lemma EveryScheduleAgrees(net: Network, f: Program, taken: seq<nat>, u: Config<Message>)
    requires net.Quiet() && Follows(f, net.run) && Formed(u) && Runs(Start<Message>(net.calls, net.sid), taken, u, f)
    ensures CanFinish(u, Outcome(net.run), f) && |taken| <= |net.run|
    ensures Stuck(u) ==> u == Outcome(net.run)
  {
    SessionIsRun(net, f);
    OutcomeFinished(net.run);
    var s, t := Start<Message>(net.calls, net.sid), Outcome(net.run);
    var rest := EveryRunCompletes(s, OrderOf(net.run), t, taken, u, f);
    if Stuck(u) {
      OnlyFinalIsStuck(s, OrderOf(net.run), t, taken, u, f);
    }
  }

  /** What party i received last in this state. */
  function LastGot(u: Config<Message>, i: nat): (m: Message)
    requires i < |u.done| && u.done[i] != []
  {
    u.done[i][|u.done[i]| - 1].payload
  }

  /** If the last call opened these bits, then in every interleaving every party computes them. */
  lemma BitsInEverySchedule(net: Network, f: Program, taken: seq<nat>, u: Config<Message>, shares: Plane, i: nat)
    requires net.Quiet() && Follows(f, net.run) && Formed(u) && Runs(Start<Message>(net.calls, net.sid), taken, u, f)
    requires Stuck(u) && i < 3 && Got(net.run, i, Lanes(Seconds(shares, Before(i))))
    ensures u.done[i] != [] && LastGot(u, i).Lanes? && |LastGot(u, i).bits| == |shares|
    ensures Gates.Xored(shares, i, LastGot(u, i).bits) == Gates.OpenBits(shares)
  {
    EveryScheduleAgrees(net, f, taken, u);
    assert u.done[i] == MemoryOf(net.run, i);
    Gates.XoredOpens(shares);
  }

  /** The same for ring elements. */
  lemma ValuesInEverySchedule(net: Network, f: Program, taken: seq<nat>, u: Config<Message>, shares: Vec, k: nat,
                              i: nat)
    requires net.Quiet() && Follows(f, net.run) && Formed(u) && Runs(Start<Message>(net.calls, net.sid), taken, u, f)
    requires Stuck(u) && i < 3 && Got(net.run, i, Elements(Seconds(shares, Before(i))))
    ensures u.done[i] != [] && LastGot(u, i).Elements? && |LastGot(u, i).values| == |shares|
    ensures Opening.Added(shares, i, LastGot(u, i).values, k) == Opening.Opens(shares, k)
  {
    EveryScheduleAgrees(net, f, taken, u);
    assert u.done[i] == MemoryOf(net.run, i);
    Opening.AddedOpens(shares, i, k);
  }
}
