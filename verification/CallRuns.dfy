/** A complete schedule for every sequence of protocol calls, and what follows for all schedules. */
module CallRuns {
  import opened Sessions
  import opened Interleaving

  // ----- what decides whether a party can move ------------------------------------------------------

  /** A configuration without its payloads. */
  datatype Shape = Shape(todo: seq<seq<Event>>, lens: seq<seq<nat>>)

  predicate FormedShape(a: Shape) {
    |a.todo| == 3 && |a.lens| == 6 && forall i :: 0 <= i < 3 ==> Communicates(a.todo[i])
  }

  predicate ShapeCan(a: Shape, i: nat)
    requires FormedShape(a) && i < 3
  {
    && a.todo[i] != []
    && (IsReceive(a.todo[i][0]) ==>
      var q := a.lens[Key(i, a.todo[i][0])]; q != [] && q[0] == Length(a.todo[i][0]))
  }

  function ShapeDo(a: Shape, i: nat): (b: Shape)
    requires FormedShape(a) && i < 3 && ShapeCan(a, i)
    ensures FormedShape(b)
  {
    var e := a.todo[i][0];
    var k := Key(i, e);
    assert forall x :: 0 <= x < |a.todo[i][1..]| ==> a.todo[i][1..][x] == a.todo[i][x + 1];
    Shape(a.todo[i := a.todo[i][1..]], a.lens[k := if IsReceive(e) then a.lens[k][1..] else a.lens[k] + [Length(e)]])
  }

  ghost predicate ShapeRuns(a: Shape, schedule: seq<nat>, b: Shape)
    requires FormedShape(a)
    decreases |schedule|
  {
    if schedule == [] then a == b
    else schedule[0] < 3 && ShapeCan(a, schedule[0]) && ShapeRuns(ShapeDo(a, schedule[0]), schedule[1..], b)
  }

  lemma {:induction false} RunsAppend(a: Shape, s: seq<nat>, b: Shape, t: seq<nat>, c: Shape)
    requires FormedShape(a) && FormedShape(b) && ShapeRuns(a, s, b) && ShapeRuns(b, t, c)
    ensures ShapeRuns(a, s + t, c)
    decreases |s|
  {
    if s == [] {
      assert s + t == t;
    } else {
      RunsAppend(ShapeDo(a, s[0]), s[1..], b, t, c);
      assert (s + t)[1..] == s[1..] + t;
    }
  }

  lemma StepFirst(a: Shape, i: nat, b: Shape, s: seq<nat>, c: Shape)
    requires FormedShape(a) && i < 3 && ShapeCan(a, i) && b == ShapeDo(a, i) && ShapeRuns(b, s, c)
    ensures ShapeRuns(a, [i] + s, c)
  {
    assert ([i] + s)[1..] == s;
  }

  function LensOf<P>(q: seq<Letter<P>>): (r: seq<nat>)
    ensures |r| == |q| && forall x :: 0 <= x < |q| ==> r[x] == q[x].len
  {
    seq<nat>(|q|, x requires 0 <= x < |q| => q[x].len)
  }

  function ShapeOf<P>(s: Config<P>): (a: Shape)
    requires Formed(s)
    ensures FormedShape(a)
  {
    Shape(s.todo, seq(6, k requires 0 <= k < 6 => LensOf(s.queue[k])))
  }

  lemma ShapeStep<P>(s: Config<P>, i: nat, f: (nat, seq<Memory<P>>) -> P)
    requires Formed(s) && i < 3
    ensures Can(s, i) == ShapeCan(ShapeOf(s), i)
    ensures Can(s, i) ==> ShapeOf(Do(s, i, f)) == ShapeDo(ShapeOf(s), i)
  {
    if Can(s, i) {
      var t := Do(s, i, f);
      var b := ShapeDo(ShapeOf(s), i);
      forall k | 0 <= k < 6
        ensures LensOf(t.queue[k]) == b.lens[k]
      {
      }
      assert ShapeOf(t).lens == b.lens;
    }
  }

  /** A run of shapes is the shape of a run, whatever the payloads. */
  lemma {:induction false} Lift<P>(s: Config<P>, schedule: seq<nat>, b: Shape, f: (nat, seq<Memory<P>>) -> P)
    returns (t: Config<P>)
    requires Formed(s) && ShapeRuns(ShapeOf(s), schedule, b)
    ensures Formed(t) && Runs(s, schedule, t, f) && ShapeOf(t) == b
    decreases |schedule|
  {
    if schedule == [] {
      t := s;
    } else {
      ShapeStep(s, schedule[0], f);
      t := Lift(Do(s, schedule[0], f), schedule[1..], b, f);
    }
  }

  // ----- rotating the parties into their roles --------------------------------------------------------

  /** The party playing role r when role 0 is played by p. */
  function Player(r: nat, p: nat): (i: nat)
    requires r < 3 && p < 3
    ensures i < 3
  {
    if r == 0 then p else if r == 1 then After(p) else Before(p)
  }

  function TurnKey(k: nat, p: nat): (q: nat)
    requires k < 6 && p < 3
    ensures q < 6
  {
    if k < 3 then Player(k, p) else 3 + Player(k - 3, p)
  }

  lemma PlayersDiffer(r: nat, r': nat, p: nat)
    requires r < 3 && r' < 3 && p < 3
    ensures Player(r, p) == Player(r', p) <==> r == r'
  {
  }

  lemma KeysDiffer(k: nat, k': nat, p: nat)
    requires k < 6 && k' < 6 && p < 3
    ensures TurnKey(k, p) == TurnKey(k', p) <==> k == k'
  {
  }

  lemma TurnedKey(r: nat, p: nat, e: Event)
    requires r < 3 && p < 3 && (IsSend(e) || IsReceive(e))
    ensures Key(Player(r, p), e) == TurnKey(Key(r, e), p)
  {
    assert p == 0 || p == 1 || p == 2;
  }

  /** The same shape with parties and queues numbered by role. */
  function Turn(a: Shape, p: nat): (b: Shape)
    requires FormedShape(a) && p < 3
    ensures FormedShape(b)
    ensures forall r :: 0 <= r < 3 ==> b.todo[r] == a.todo[Player(r, p)]
    ensures forall k :: 0 <= k < 6 ==> b.lens[k] == a.lens[TurnKey(k, p)]
  {
    Shape(seq(3, r requires 0 <= r < 3 => a.todo[Player(r, p)]), seq(6, k requires 0 <= k < 6 => a.lens[TurnKey(k, p)]))
  }

  lemma TurnStep(a: Shape, p: nat, r: nat)
    requires FormedShape(a) && p < 3 && r < 3
    ensures ShapeCan(Turn(a, p), r) == ShapeCan(a, Player(r, p))
    ensures ShapeCan(a, Player(r, p)) ==> ShapeDo(Turn(a, p), r) == Turn(ShapeDo(a, Player(r, p)), p)
  {
    var i := Player(r, p);
    if a.todo[i] != [] {
      TurnedKey(r, p, a.todo[i][0]);
      if ShapeCan(a, i) {
        TurnStepEqual(a, p, r);
      }
    }
  }

  lemma TurnStepEqual(a: Shape, p: nat, r: nat)
    requires FormedShape(a) && p < 3 && r < 3 && ShapeCan(a, Player(r, p)) && ShapeCan(Turn(a, p), r)
    ensures ShapeDo(Turn(a, p), r) == Turn(ShapeDo(a, Player(r, p)), p)
  {
    var i := Player(r, p);
    var e := a.todo[i][0];
    TurnedKey(r, p, e);
    var x, y := ShapeDo(Turn(a, p), r), Turn(ShapeDo(a, i), p);
    forall r' | 0 <= r' < 3
      ensures x.todo[r'] == y.todo[r']
    {
      PlayersDiffer(r, r', p);
    }
    forall k | 0 <= k < 6
      ensures x.lens[k] == y.lens[k]
    {
      KeysDiffer(k, Key(r, e), p);
    }
  }

  lemma TurnInjective(a: Shape, b: Shape, p: nat)
    requires FormedShape(a) && FormedShape(b) && p < 3 && Turn(a, p) == Turn(b, p)
    ensures a == b
  {
    forall i | 0 <= i < 3
      ensures a.todo[i] == b.todo[i]
    {
      var r := RoleOf(i, p);
      assert Turn(a, p).todo[r] == Turn(b, p).todo[r];
    }
    forall k | 0 <= k < 6
      ensures a.lens[k] == b.lens[k]
    {
      var r := if k < 3 then RoleOf(k, p) else 3 + RoleOf(k - 3, p);
      assert Turn(a, p).lens[r] == Turn(b, p).lens[r];
    }
  }

  function RoleOf(i: nat, p: nat): (r: nat)
    requires i < 3 && p < 3
    ensures r < 3 && Player(r, p) == i
  {
    if i == p then 0 else if i == After(p) then 1 else 2
  }

  lemma {:induction false} TurnRuns(a: Shape, p: nat, s: seq<nat>, b: Shape) returns (t: seq<nat>)
    requires FormedShape(a) && FormedShape(b) && p < 3 && ShapeRuns(Turn(a, p), s, Turn(b, p))
    ensures ShapeRuns(a, t, b)
    decreases |s|
  {
    if s == [] {
      TurnInjective(a, b, p);
      t := [];
    } else {
      var i := Player(s[0], p);
      TurnStep(a, p, s[0]);
      var rest := TurnRuns(ShapeDo(a, i), p, s[1..], b);
      t := [i] + rest;
      assert t[1..] == rest;
    }
  }

  // ----- one call, numbered by role --------------------------------------------------------------------

  /** Party i sends. */
  lemma Send(a: Shape, i: nat, e: Event, rest: seq<Event>, k: nat) returns (b: Shape)
    requires FormedShape(a) && i < 3 && IsSend(e) && a.todo[i] == [e] + rest && k == Key(i, e)
    ensures ShapeCan(a, i) && b == ShapeDo(a, i) && FormedShape(b)
    ensures b.todo == a.todo[i := rest] && b.lens == a.lens[k := a.lens[k] + [Length(e)]]
  {
    assert a.todo[i][0] == e && a.todo[i][1..] == rest;
    b := ShapeDo(a, i);
  }

  /** Party i receives. */
  lemma Receive(a: Shape, i: nat, e: Event, rest: seq<Event>, k: nat, q: seq<nat>) returns (b: Shape)
    requires FormedShape(a) && i < 3 && IsReceive(e) && a.todo[i] == [e] + rest && k == Key(i, e)
    requires a.lens[k] == [Length(e)] + q
    ensures ShapeCan(a, i) && b == ShapeDo(a, i) && FormedShape(b)
    ensures b.todo == a.todo[i := rest] && b.lens == a.lens[k := q]
  {
    assert a.todo[i][0] == e && a.todo[i][1..] == rest && a.lens[k][0] == Length(e) && a.lens[k][1..] == q;
    b := ShapeDo(a, i);
  }

  ghost predicate Idle(a: Shape) {
    FormedShape(a) && forall k :: 0 <= k < 6 ==> a.lens[k] == []
  }

  lemma SameShape(a: Shape, b: Shape)
    requires FormedShape(a) && FormedShape(b) && a.todo[0] == b.todo[0] && a.todo[1] == b.todo[1]
    requires a.todo[2] == b.todo[2]
    requires Idle(a) && Idle(b)
    ensures a == b
  {
    assert a.todo == b.todo && a.lens == b.lens;
  }

  /** Everybody sends to the next party, then receives. */
  lemma RingRuns(a: Shape, n: nat, c: Shape) returns (s: seq<nat>)
    requires Idle(a) && Idle(c) && forall r :: 0 <= r < 3 ==> a.todo[r] == [SentNext(n), GotPrev(n)] + c.todo[r]
    ensures ShapeRuns(a, s, c)
  {
    var g := [GotPrev(n)];
    assert forall r :: 0 <= r < 3 ==> a.todo[r] == [SentNext(n)] + (g + c.todo[r]);
    var a1 := Send(a, 0, SentNext(n), g + c.todo[0], 0);
    var a2 := Send(a1, 1, SentNext(n), g + c.todo[1], 1);
    var a3 := Send(a2, 2, SentNext(n), g + c.todo[2], 2);
    var a4 := Receive(a3, 0, GotPrev(n), c.todo[0], 2, []);
    var a5 := Receive(a4, 1, GotPrev(n), c.todo[1], 0, []);
    var a6 := Receive(a5, 2, GotPrev(n), c.todo[2], 1, []);
    SameShape(a6, c);
    s := Chain6(a, 0, a1, 1, a2, 2, a3, 0, a4, 1, a5, 2, c);
  }

  lemma Chain6(a0: Shape, i0: nat, a1: Shape, i1: nat, a2: Shape, i2: nat, a3: Shape, i3: nat, a4: Shape, i4: nat,
               a5: Shape, i5: nat, a6: Shape)
    returns (s: seq<nat>)
    requires Steps(a0, i0, a1) && Steps(a1, i1, a2) && Steps(a2, i2, a3) && Steps(a3, i3, a4) && Steps(a4, i4, a5)
    requires Steps(a5, i5, a6)
    ensures ShapeRuns(a0, s, a6)
  {
    assert ShapeRuns(a6, [], a6);
    StepFirst(a5, i5, a6, [], a6);
    s := [i5] + [];
    StepFirst(a4, i4, a5, s, a6);
    s := [i4] + s;
    StepFirst(a3, i3, a4, s, a6);
    s := [i3] + s;
    StepFirst(a2, i2, a3, s, a6);
    s := [i2] + s;
    StepFirst(a1, i1, a2, s, a6);
    s := [i1] + s;
    StepFirst(a0, i0, a1, s, a6);
    s := [i0] + s;
  }

  ghost predicate Steps(a: Shape, i: nat, b: Shape) {
    FormedShape(a) && FormedShape(b) && i < 3 && ShapeCan(a, i) && b == ShapeDo(a, i)
  }

  /** In role numbering the split passes one piece from each role to the next. */
  lemma SplitRuns(a: Shape, n0: nat, n1: nat, n2: nat, c: Shape) returns (s: seq<nat>)
    requires Idle(a) && Idle(c) && a.todo[0] == [SentNext(n0), GotPrev(n2)] + c.todo[0]
    requires a.todo[1] == [GotPrev(n0), SentNext(n1)] + c.todo[1]
    requires a.todo[2] == [GotPrev(n1), SentNext(n2)] + c.todo[2]
    ensures ShapeRuns(a, s, c)
  {
    assert a.todo[0] == [SentNext(n0)] + ([GotPrev(n2)] + c.todo[0]);
    assert a.todo[1] == [GotPrev(n0)] + ([SentNext(n1)] + c.todo[1]);
    assert a.todo[2] == [GotPrev(n1)] + ([SentNext(n2)] + c.todo[2]);
    var a1 := Send(a, 0, SentNext(n0), [GotPrev(n2)] + c.todo[0], 0);
    var a2 := Receive(a1, 1, GotPrev(n0), [SentNext(n1)] + c.todo[1], 0, []);
    var a3 := Send(a2, 1, SentNext(n1), c.todo[1], 1);
    var a4 := Receive(a3, 2, GotPrev(n1), [SentNext(n2)] + c.todo[2], 1, []);
    var a5 := Send(a4, 2, SentNext(n2), c.todo[2], 2);
    var a6 := Receive(a5, 0, GotPrev(n2), c.todo[0], 2, []);
    SameShape(a6, c);
    s := Chain6(a, 0, a1, 1, a2, 1, a3, 2, a4, 2, a5, 0, c);
  }

  lemma InjectRuns(a: Shape, n: nat, c: Shape) returns (s: seq<nat>)
    requires Idle(a) && Idle(c) && a.todo[0] == [SentNext(n), GotPrev(n)] + c.todo[0]
    requires a.todo[1] == [SentNext(n), GotPrev(n)] + c.todo[1] && a.todo[2] == [GotPrev(n), SentNext(n)] + c.todo[2]
    ensures ShapeRuns(a, s, c)
  {
    assert a.todo[0] == [SentNext(n)] + ([GotPrev(n)] + c.todo[0]);
    assert a.todo[1] == [SentNext(n)] + ([GotPrev(n)] + c.todo[1]);
    assert a.todo[2] == [GotPrev(n)] + ([SentNext(n)] + c.todo[2]);
    var a1 := Send(a, 0, SentNext(n), [GotPrev(n)] + c.todo[0], 0);
    var a2 := Send(a1, 1, SentNext(n), [GotPrev(n)] + c.todo[1], 1);
    var a3 := Receive(a2, 1, GotPrev(n), c.todo[1], 0, []);
    var a4 := Receive(a3, 2, GotPrev(n), [SentNext(n)] + c.todo[2], 1, []);
    var a5 := Send(a4, 2, SentNext(n), c.todo[2], 2);
    var a6 := Receive(a5, 0, GotPrev(n), c.todo[0], 2, []);
    SameShape(a6, c);
    s := Chain6(a, 0, a1, 1, a2, 1, a3, 2, a4, 2, a5, 0, c);
  }

  lemma Chain4(a0: Shape, i0: nat, a1: Shape, i1: nat, a2: Shape, i2: nat, a3: Shape, i3: nat, a4: Shape)
    returns (s: seq<nat>)
    requires Steps(a0, i0, a1) && Steps(a1, i1, a2) && Steps(a2, i2, a3) && Steps(a3, i3, a4)
    ensures ShapeRuns(a0, s, a4)
  {
    assert ShapeRuns(a4, [], a4);
    StepFirst(a3, i3, a4, [], a4);
    s := [i3] + [];
    StepFirst(a2, i2, a3, s, a4);
    s := [i2] + s;
    StepFirst(a1, i1, a2, s, a4);
    s := [i1] + s;
    StepFirst(a0, i0, a1, s, a4);
    s := [i0] + s;
  }

  lemma ShuffleRuns(a: Shape, n: nat, c: Shape) returns (s: seq<nat>)
    requires Idle(a) && Idle(c) && a.todo[0] == [SentNext(n)] + c.todo[0]
    requires a.todo[1] == [SentNext(n), GotPrev(n), SentNext(n), GotNext(n)] + c.todo[1]
    requires a.todo[2] == [GotPrev(n), SentPrev(n), GotPrev(n)] + c.todo[2]
    ensures ShapeRuns(a, s, c)
  {
    var t3 := [GotNext(n)] + c.todo[1];
    var t2 := [SentNext(n)] + t3;
    var t1 := [GotPrev(n)] + t2;
    var u2 := [GotPrev(n)] + c.todo[2];
    var u1 := [SentPrev(n)] + u2;
    assert a.todo[1] == [SentNext(n)] + t1 && a.todo[2] == [GotPrev(n)] + u1;
    var a1 := Send(a, 0, SentNext(n), c.todo[0], 0);
    var a2 := Send(a1, 1, SentNext(n), t1, 1);
    var a3 := Receive(a2, 1, GotPrev(n), t2, 0, []);
    var a4 := Send(a3, 1, SentNext(n), t3, 1);
    var first := Chain4(a, 0, a1, 1, a2, 1, a3, 1, a4);
    var second := ShuffleRest(a4, n, u1, u2, c);
    RunsAppend(a, first, a4, second, c);
    s := first + second;
  }

  lemma ShuffleRest(a: Shape, n: nat, u1: seq<Event>, u2: seq<Event>, c: Shape) returns (s: seq<nat>)
    requires FormedShape(a) && Idle(c) && a.todo[0] == c.todo[0] && a.todo[1] == [GotNext(n)] + c.todo[1]
    requires a.todo[2] == [GotPrev(n)] + u1 && u1 == [SentPrev(n)] + u2 && u2 == [GotPrev(n)] + c.todo[2]
    requires a.lens[0] == [] && a.lens[1] == [n] + [n] && a.lens[2] == [] && a.lens[3] == [] && a.lens[4] == []
    requires a.lens[5] == []
    ensures ShapeRuns(a, s, c)
  {
    var a1 := Receive(a, 2, GotPrev(n), u1, 1, [n]);
    var a2 := Send(a1, 2, SentPrev(n), u2, 5);
    var a3 := Receive(a2, 2, GotPrev(n), c.todo[2], 1, []);
    var a4 := Receive(a3, 1, GotNext(n), c.todo[1], 5, []);
    SameShape(a4, c);
    s := Chain4(a, 2, a1, 2, a2, 2, a3, 1, c);
  }

  /** Everybody sends both ways, then receives both ways. */
  lemma BroadcastRuns(a: Shape, n: nat, c: Shape) returns (s: seq<nat>)
    requires Idle(a) && Idle(c)
    requires forall r :: 0 <= r < 3 ==> a.todo[r] == [SentNext(n), SentPrev(n), GotPrev(n), GotNext(n)] + c.todo[r]
    ensures ShapeRuns(a, s, c)
  {
    var g := [GotPrev(n), GotNext(n)];
    assert forall r :: 0 <= r < 3 ==> a.todo[r] == [SentNext(n)] + ([SentPrev(n)] + (g + c.todo[r]));
    var a1 := Send(a, 0, SentNext(n), [SentPrev(n)] + (g + c.todo[0]), 0);
    var a2 := Send(a1, 0, SentPrev(n), g + c.todo[0], 3);
    var a3 := Send(a2, 1, SentNext(n), [SentPrev(n)] + (g + c.todo[1]), 1);
    var a4 := Send(a3, 1, SentPrev(n), g + c.todo[1], 4);
    var a5 := Send(a4, 2, SentNext(n), [SentPrev(n)] + (g + c.todo[2]), 2);
    var a6 := Send(a5, 2, SentPrev(n), g + c.todo[2], 5);
    var first := Chain6(a, 0, a1, 0, a2, 1, a3, 1, a4, 2, a5, 2, a6);
    var second := BroadcastRest(a6, n, c);
    RunsAppend(a, first, a6, second, c);
    s := first + second;
  }

  lemma BroadcastRest(a: Shape, n: nat, c: Shape) returns (s: seq<nat>)
    requires FormedShape(a) && Idle(c) && forall r :: 0 <= r < 3 ==> a.todo[r] == [GotPrev(n), GotNext(n)] + c.todo[r]
    requires forall k :: 0 <= k < 6 ==> a.lens[k] == [n]
    ensures ShapeRuns(a, s, c)
  {
    assert forall r :: 0 <= r < 3 ==> a.todo[r] == [GotPrev(n)] + ([GotNext(n)] + c.todo[r]);
    var a1 := Receive(a, 0, GotPrev(n), [GotNext(n)] + c.todo[0], 2, []);
    var a2 := Receive(a1, 0, GotNext(n), c.todo[0], 4, []);
    var a3 := Receive(a2, 1, GotPrev(n), [GotNext(n)] + c.todo[1], 0, []);
    var a4 := Receive(a3, 1, GotNext(n), c.todo[1], 5, []);
    var a5 := Receive(a4, 2, GotPrev(n), [GotNext(n)] + c.todo[2], 1, []);
    var a6 := Receive(a5, 2, GotNext(n), c.todo[2], 3, []);
    SameShape(a6, c);
    s := Chain6(a, 0, a1, 0, a2, 1, a3, 1, a4, 2, a5, 2, c);
  }
}
