/** Every interleaving of the three parties' sends and receives completes, with the same outcome. */
module Interleaving {
  import opened Sessions

  // ----- asynchronous executions ----------------------------------------------------------------

  /** Queues 0..2 lead from a party to the next one, 3..5 to the previous one. */
  function Key(i: nat, e: Event): (k: nat)
    requires i < 3 && (IsSend(e) || IsReceive(e))
    ensures k < 6
  {
    match e
    case SentNext(_) => i
    case SentPrev(_) => 3 + i
    case GotPrev(_) => Before(i)
    case GotNext(_) => 3 + After(i)
  }

  function Length(e: Event): (n: nat)
    requires IsSend(e) || IsReceive(e)
  {
    match e
    case SentNext(n) => n
    case SentPrev(n) => n
    case GotPrev(n) => n
    case GotNext(n) => n
  }

  /** Two parties touch the same queue only as its writer and its reader. */
  lemma KeyClash(i: nat, e: Event, j: nat, g: Event)
    requires i < 3 && j < 3 && i != j && (IsSend(e) || IsReceive(e)) && (IsSend(g) || IsReceive(g))
    requires Key(i, e) == Key(j, g)
    ensures IsSend(e) == IsReceive(g)
  {
  }

  datatype Letter<P> = Letter(len: nat, payload: P)

  datatype Config<P> = Config(done: seq<seq<Memory<P>>>, todo: seq<seq<Event>>, queue: seq<seq<Letter<P>>>)

  predicate Formed<P>(s: Config<P>) {
    && |s.done| == |s.todo| == 3 && |s.queue| == 6
    && forall i :: 0 <= i < 3 ==> Communicates(s.todo[i])
  }

  /** A send never blocks; a receive waits for a message and needs it to have the expected length. */
  predicate Can<P>(s: Config<P>, i: nat)
    requires Formed(s) && i < 3
  {
    && s.todo[i] != []
    && (IsReceive(s.todo[i][0]) ==>
      var q := s.queue[Key(i, s.todo[i][0])]; q != [] && q[0].len == Length(s.todo[i][0]))
  }

  /** What a party sends is a function of the party and of everything it has done and received. */
  function Do<P>(s: Config<P>, i: nat, f: (nat, seq<Memory<P>>) -> P): (t: Config<P>)
    requires Formed(s) && i < 3 && Can(s, i)
    ensures Formed(t)
  {
    var e := s.todo[i][0];
    var k := Key(i, e);
    var q := s.queue[k];
    assert forall x :: 0 <= x < |s.todo[i][1..]| ==> s.todo[i][1..][x] == s.todo[i][x + 1];
    if IsReceive(e) then
      Config(s.done[i := s.done[i] + [Received(e, q[0].payload)]], s.todo[i := s.todo[i][1..]], s.queue[k := q[1..]])
    else
      var x := f(i, s.done[i]);
      Config(s.done[i := s.done[i] + [Sent(e, x)]], s.todo[i := s.todo[i][1..]],
             s.queue[k := q + [Letter(Length(e), x)]])
  }

  /** Steps of different parties commute. */
  lemma Diamond<P>(s: Config<P>, i: nat, j: nat, f: (nat, seq<Memory<P>>) -> P)
    requires Formed(s) && i < 3 && j < 3 && i != j && Can(s, i) && Can(s, j)
    ensures Can(Do(s, i, f), j) && Can(Do(s, j, f), i)
    ensures Do(Do(s, i, f), j, f) == Do(Do(s, j, f), i, f)
  {
    var e, g := s.todo[i][0], s.todo[j][0];
    if Key(i, e) == Key(j, g) {
      KeyClash(i, e, j, g);
      SameQueue(s, i, j, f);
    } else {
      OtherQueue(s, i, j, f);
    }
  }

  lemma OtherQueue<P>(s: Config<P>, i: nat, j: nat, f: (nat, seq<Memory<P>>) -> P)
    requires Formed(s) && i < 3 && j < 3 && i != j && Can(s, i) && Can(s, j)
    requires Key(i, s.todo[i][0]) != Key(j, s.todo[j][0])
    ensures Can(Do(s, i, f), j) && Can(Do(s, j, f), i)
    ensures Do(Do(s, i, f), j, f) == Do(Do(s, j, f), i, f)
  {
    var t, u := Do(Do(s, i, f), j, f), Do(Do(s, j, f), i, f);
    assert t.done == u.done && t.todo == u.todo && t.queue == u.queue;
  }

  lemma SameQueue<P>(s: Config<P>, i: nat, j: nat, f: (nat, seq<Memory<P>>) -> P)
    requires Formed(s) && i < 3 && j < 3 && i != j && Can(s, i) && Can(s, j)
    requires Key(i, s.todo[i][0]) == Key(j, s.todo[j][0])
    requires IsSend(s.todo[i][0]) == IsReceive(s.todo[j][0])
    ensures Can(Do(s, i, f), j) && Can(Do(s, j, f), i)
    ensures Do(Do(s, i, f), j, f) == Do(Do(s, j, f), i, f)
  {
    var k := Key(i, s.todo[i][0]);
    var w := if IsSend(s.todo[i][0]) then i else j;
    PopPush(s.queue[k], Letter(Length(s.todo[w][0]), f(w, s.done[w])));
    var t, u := Do(Do(s, i, f), j, f), Do(Do(s, j, f), i, f);
    assert t.done == u.done && t.todo == u.todo;
    assert t.queue[k] == u.queue[k];
    assert t.queue == u.queue;
  }

  lemma PopPush<T>(q: seq<T>, m: T)
    requires q != []
    ensures (q + [m])[1..] == q[1..] + [m] && (q + [m])[0] == q[0]
  {
  }

  // ----- runs -------------------------------------------------------------------------------------

  /** The schedule names the party that moves at each step. */
  ghost predicate Runs<P>(s: Config<P>, schedule: seq<nat>, t: Config<P>, f: (nat, seq<Memory<P>>) -> P)
    requires Formed(s)
    decreases |schedule|
  {
    if schedule == [] then s == t
    else schedule[0] < 3 && Can(s, schedule[0]) && Runs(Do(s, schedule[0], f), schedule[1..], t, f)
  }

  predicate Stuck<P>(s: Config<P>)
    requires Formed(s)
  {
    !Can(s, 0) && !Can(s, 1) && !Can(s, 2)
  }

  /** If some schedule leads to a state where nobody can move, then after any first step the same state
      is still reached, in one step less. */
  lemma {:induction false} AnyFirstStep<P>(s: Config<P>, schedule: seq<nat>, t: Config<P>, j: nat,
                                           f: (nat, seq<Memory<P>>) -> P)
    returns (rest: seq<nat>)
    requires Formed(s) && Formed(t) && Runs(s, schedule, t, f) && Stuck(t) && j < 3 && Can(s, j)
    ensures |rest| + 1 == |schedule| && Runs(Do(s, j, f), rest, t, f)
    decreases |schedule|
  {
    assert schedule != [] by {
      assert j == 0 || j == 1 || j == 2;
    }
    var i := schedule[0];
    if i == j {
      rest := schedule[1..];
    } else {
      Diamond(s, i, j, f);
      var tail := AnyFirstStep(Do(s, i, f), schedule[1..], t, j, f);
      rest := [i] + tail;
      assert rest[1..] == tail;
    }
  }

  /** Every partial run can be completed, and always to the same final state. */
  lemma {:induction false} EveryRunCompletes<P>(s: Config<P>, schedule: seq<nat>, t: Config<P>, taken: seq<nat>,
                                                u: Config<P>,
                                               f: (nat, seq<Memory<P>>) -> P) returns (rest: seq<nat>)
    requires Formed(s) && Formed(t) && Runs(s, schedule, t, f) && Stuck(t) && Runs(s, taken, u, f)
    ensures |taken| + |rest| == |schedule| && Formed(u) && Runs(u, rest, t, f)
    decreases |taken|
  {
    if taken == [] {
      rest := schedule;
    } else {
      var next := AnyFirstStep(s, schedule, t, taken[0], f);
      rest := EveryRunCompletes(Do(s, taken[0], f), next, t, taken[1..], u, f);
    }
  }

  /** So a state that cannot move is the final one. */
  lemma OnlyFinalIsStuck<P>(s: Config<P>, schedule: seq<nat>, t: Config<P>, taken: seq<nat>, u: Config<P>,
                            f: (nat, seq<Memory<P>>) -> P)
    requires Formed(s) && Formed(t) && Runs(s, schedule, t, f) && Stuck(t) && Formed(u) && Runs(s, taken, u, f)
    requires Stuck(u)
    ensures u == t && |taken| == |schedule|
  {
    var rest := EveryRunCompletes(s, schedule, t, taken, u, f);
    StuckEnds(u, rest, t, f);
  }

  lemma StuckEnds<P>(u: Config<P>, rest: seq<nat>, t: Config<P>, f: (nat, seq<Memory<P>>) -> P)
    requires Formed(u) && Runs(u, rest, t, f) && Stuck(u)
    ensures rest == [] && u == t
  {
  }
}
