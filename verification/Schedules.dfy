/** Any sequence of calls, under any interleaving: nobody gets stuck, channels end empty, the outcome
    does not depend on the schedule, and generators stay in step. */
module Schedules {
  import opened Sessions
  import opened Interleaving
  import opened CallRuns

  // ----- communication events of a call -----------------------------------------------------------

  lemma {:induction false} CommAppend(x: seq<Event>, y: seq<Event>)
    ensures Comm(x + y) == Comm(x) + Comm(y)
  {
    if y == [] {
      assert x + y == x;
    } else {
      var n := |y| - 1;
      assert (x + y)[..|x + y| - 1] == x + y[..n];
      CommAppend(x, y[..n]);
    }
  }

  /** The communication of role r. */
  function RoleComm(c: Call, r: nat): (es: seq<Event>)
    requires r < 3
  {
    match c
    case And(n) => [SentNext(n), GotPrev(n)]
    case Reshare(_, n) => [SentNext(n), GotPrev(n)]
    case Reveal(n) => [SentNext(n), GotPrev(n)]
    case ZeroShares(_, _) => []
    case Broadcast(n) => [SentNext(n), SentPrev(n), GotPrev(n), GotNext(n)]
    case Split(_, n) =>
      if n == 0 then []
      else if r == 0 then [SentNext(Piece(n, 0)), GotPrev(Piece(n, 2))]
      else if r == 1 then [GotPrev(Piece(n, 0)), SentNext(Piece(n, 1))]
      else [GotPrev(Piece(n, 1)), SentNext(Piece(n, 2))]
    case Inject(_, n) => if r == 2 then [GotPrev(n), SentNext(n)] else [SentNext(n), GotPrev(n)]
    case Shuffle(_, count, _) =>
      var n := 3 * count;
      if r == 0 then [SentNext(n)] else if r == 1 then [SentNext(n), GotPrev(n), SentNext(n), GotNext(n)]
      else [GotPrev(n), SentPrev(n), GotPrev(n)]
  }

  lemma CommTwo(d: Event, e: Event)
    requires !IsSend(d) && !IsReceive(d)
    ensures Comm([d]) == [] && Comm([d, e]) == Comm([e])
  {
    assert [d, e][1..] == [e] && [d][1..] == [];
  }

  lemma CommOne(e: Event)
    ensures Comm([e]) == if IsSend(e) || IsReceive(e) then [e] else []
  {
    assert [e][1..] == [];
  }

  lemma CommOfChunk(k: nat, len: nat, r: nat, chunk: nat)
    requires r < 3 && chunk < 3
    ensures Comm(SplitChunkScript(k, len, r, chunk)) == ChunkComm(len, r, chunk)
  {
    var n := Piece(len, chunk);
    CommTwo(DrewPrev(Each(k, n)), SentNext(n));
    CommOne(SentNext(n));
    CommOne(GotPrev(n));
    CommOne(DrewMine(Each(k, n)));
  }

  lemma CommThree(x: seq<Event>, y: seq<Event>, z: seq<Event>)
    ensures Comm(x + y + z) == Comm(x) + Comm(y) + Comm(z)
  {
    CommAppend(x + y, z);
    CommAppend(x, y);
  }

  lemma CommOfSplit(k: nat, len: nat, r: nat)
    requires r < 3
    ensures Comm(SplitScript(k, len, r)) == RoleComm(Split(k, len), r)
  {
    if len > 0 {
      var x, y, z := SplitChunkScript(k, len, r, 0), SplitChunkScript(k, len, r, 1), SplitChunkScript(k, len, r, 2);
      assert SplitScript(k, len, r) == x + y + z;
      CommOfChunks(k, len, r, x, y, z);
    }
  }

  lemma CommOfChunks(k: nat, len: nat, r: nat, x: seq<Event>, y: seq<Event>, z: seq<Event>)
    requires r < 3 && len > 0 && x == SplitChunkScript(k, len, r, 0) && y == SplitChunkScript(k, len, r, 1)
    requires z == SplitChunkScript(k, len, r, 2)
    ensures Comm(x + y + z) == RoleComm(Split(k, len), r)
  {
    CommThree(x, y, z);
    CommOfChunk(k, len, r, 0);
    CommOfChunk(k, len, r, 1);
    CommOfChunk(k, len, r, 2);
    JoinedChunks(k, len, r, Comm(x), Comm(y), Comm(z));
  }

  /** What role r communicates for one chunk. */
  function ChunkComm(len: nat, r: nat, chunk: nat): (es: seq<Event>)
    requires r < 3 && chunk < 3
  {
    if chunk == r then [SentNext(Piece(len, chunk))]
    else if (chunk + 1) % 3 == r then [GotPrev(Piece(len, chunk))]
    else []
  }

  lemma JoinedChunks(k: nat, len: nat, r: nat, x: seq<Event>, y: seq<Event>, z: seq<Event>)
    requires r < 3 && len > 0 && x == ChunkComm(len, r, 0) && y == ChunkComm(len, r, 1) && z == ChunkComm(len, r, 2)
    ensures x + y + z == RoleComm(Split(k, len), r)
  {
    assert r == 0 || r == 1 || r == 2;
  }

  lemma CommPair(a: Event, b: Event)
    ensures Comm([a, b]) == Comm([a]) + Comm([b])
  {
    assert [a, b] == [a] + [b];
    CommAppend([a], [b]);
  }

  lemma CommFour(a: Event, b: Event, c: Event, d: Event)
    ensures Comm([a, b, c, d]) == Comm([a]) + Comm([b]) + Comm([c]) + Comm([d])
  {
    assert [a, b, c, d] == [a, b] + [c, d];
    CommAppend([a, b], [c, d]);
    CommPair(a, b);
    CommPair(c, d);
  }

  lemma CommOfRing(d: Draw, n: nat)
    ensures Comm([DrewMine(d), DrewPrev(d), SentNext(n), GotPrev(n)]) == [SentNext(n), GotPrev(n)]
  {
    CommFour(DrewMine(d), DrewPrev(d), SentNext(n), GotPrev(n));
    CommOne(DrewMine(d)); CommOne(DrewPrev(d)); CommOne(SentNext(n)); CommOne(GotPrev(n));
  }

  lemma CommOfBroadcast(n: nat)
    ensures Comm([SentNext(n), SentPrev(n), GotPrev(n), GotNext(n)])
         == [SentNext(n), SentPrev(n), GotPrev(n), GotNext(n)]
    ensures Comm([SentNext(n), GotPrev(n)]) == [SentNext(n), GotPrev(n)]
  {
    CommFour(SentNext(n), SentPrev(n), GotPrev(n), GotNext(n));
    CommPair(SentNext(n), GotPrev(n));
    CommOne(SentNext(n)); CommOne(SentPrev(n)); CommOne(GotPrev(n)); CommOne(GotNext(n));
  }

  lemma CommOfInject(k: nat, n: nat, r: nat)
    requires r < 3
    ensures Comm(InjectScript(k, n, r)) == RoleComm(Inject(k, n), r)
  {
    var dm, dp, s, g := DrewMine(Fill(k, n)), DrewPrev(Fill(k, n)), SentNext(n), GotPrev(n);
    CommOne(dm); CommOne(dp); CommOne(s); CommOne(g);
    CommFour(dm, dp, s, g);
    CommFour(dp, s, g, dm);
    CommFour(g, dm, dp, s);
  }

  function SetupEvents(k: nat, n: nat, batch: nat): (es: seq<Event>)
    ensures Comm(es) == []
  {
    var pm, pp, em, ep := DrewMine(Permutation(batch)), DrewPrev(Permutation(batch)), DrewMine(Each(k, n)),
                          DrewPrev(Each(k, n));
    CommFour(pm, pp, em, ep);
    CommOne(pm); CommOne(pp); CommOne(em); CommOne(ep);
    [pm, pp, em, ep]
  }

  lemma CommOfRole0(k: nat, n: nat)
    ensures Comm([SentNext(n), DrewMine(Each(k, n)), DrewPrev(Each(k, n))]) == [SentNext(n)]
  {
    var sn, em, ep := SentNext(n), DrewMine(Each(k, n)), DrewPrev(Each(k, n));
    assert [sn, em, ep] == [sn] + [em, ep];
    CommAppend([sn], [em, ep]);
    CommTwo(em, ep);
    CommOne(sn); CommOne(ep);
  }

  lemma CommFive(a: Event, b: Event, c: Event, d: Event, e: Event)
    ensures Comm([a, b, c, d, e]) == Comm([a, b, c, d]) + Comm([e])
  {
    var x := [a, b, c, d];
    CommAppend(x, [e]);
    assert x + [e] == [a, b, c, d, e];
  }

  lemma CommOfRole1(k: nat, n: nat)
    ensures Comm([SentNext(n), GotPrev(n), DrewPrev(Each(k, n)), SentNext(n), GotNext(n)])
         == [SentNext(n), GotPrev(n), SentNext(n), GotNext(n)]
  {
    var sn, gp, ep, gn := SentNext(n), GotPrev(n), DrewPrev(Each(k, n)), GotNext(n);
    CommFive(sn, gp, ep, sn, gn);
    CommFour(sn, gp, ep, sn);
    CommOne(sn); CommOne(gp); CommOne(ep); CommOne(gn);
  }

  lemma CommOfRole2(k: nat, n: nat)
    ensures Comm([GotPrev(n), DrewMine(Each(k, n)), SentPrev(n), GotPrev(n)]) == [GotPrev(n), SentPrev(n), GotPrev(n)]
  {
    var gp, em, sp := GotPrev(n), DrewMine(Each(k, n)), SentPrev(n);
    CommFour(gp, em, sp, gp);
    CommOne(gp); CommOne(em); CommOne(sp);
  }

  lemma CommOfShuffle(k: nat, count: nat, batch: nat, r: nat)
    requires r < 3
    ensures Comm(ShuffleScript(k, count, batch, r)) == RoleComm(Shuffle(k, count, batch), r)
  {
    var n := 3 * count;
    var setup := SetupEvents(k, n, batch);
    var script := ShuffleScript(k, count, batch, r);
    CommAppend(setup, script[4..]);
    assert script == setup + script[4..];
    if r == 0 {
      CommOfRole0(k, n);
      assert script[4..] == [SentNext(n), DrewMine(Each(k, n)), DrewPrev(Each(k, n))];
    } else if r == 1 {
      CommOfRole1(k, n);
      assert script[4..] == [SentNext(n), GotPrev(n), DrewPrev(Each(k, n)), SentNext(n), GotNext(n)];
    } else {
      CommOfRole2(k, n);
      assert script[4..] == [GotPrev(n), DrewMine(Each(k, n)), SentPrev(n), GotPrev(n)];
    }
  }

  lemma CommOfCall(c: Call, i: nat, sid: nat)
    requires i < 3
    ensures Comm(Script(c, i, sid)) == RoleComm(c, Rotated(i, sid))
  {
    match c
    case And(n) => CommOfRing(Fill(1, n), n);
    case Reshare(k, n) => CommOfRing(Fill(k, n), n);
    case Reveal(n) => CommOfBroadcast(n);
    case ZeroShares(k, n) => CommTwo(DrewMine(Each(k, n)), DrewPrev(Each(k, n)));
      CommOne(DrewPrev(Each(k, n)));
    case Broadcast(n) => CommOfBroadcast(n);
    case Split(k, n) => CommOfSplit(k, n, Rotated(i, sid));
    case Inject(k, n) => CommOfInject(k, n, Rotated(i, sid));
    case Shuffle(k, count, batch) => CommOfShuffle(k, count, batch, Rotated(i, sid));
  }

  // ----- complete schedules -----------------------------------------------------------------------------

  lemma RoleRuns(c: Call, a: Shape, b: Shape) returns (s: seq<nat>)
    requires Idle(a) && Idle(b) && forall r :: 0 <= r < 3 ==> a.todo[r] == RoleComm(c, r) + b.todo[r]
    ensures ShapeRuns(a, s, b)
  {
    match c
    case And(n) => s := RingRuns(a, n, b);
    case Reshare(k, n) => s := RingRuns(a, n, b);
    case Reveal(n) => s := RingRuns(a, n, b);
    case ZeroShares(k, n) =>
      assert forall r :: 0 <= r < 3 ==> a.todo[r] == b.todo[r];
      CallRuns.SameShape(a, b);
      s := [];
    case Broadcast(n) => s := BroadcastRuns(a, n, b);
    case Split(k, n) =>
      if n == 0 {
        assert forall r :: 0 <= r < 3 ==> a.todo[r] == b.todo[r];
        CallRuns.SameShape(a, b);
        s := [];
      } else {
        s := SplitRuns(a, Piece(n, 0), Piece(n, 1), Piece(n, 2), b);
      }
    case Inject(k, n) => s := InjectRuns(a, n, b);
    case Shuffle(k, count, batch) => s := ShuffleRuns(a, 3 * count, b);
  }

  lemma RotationMatches(r: nat, sid: nat)
    requires r < 3
    ensures Rotated(Player(r, PartyOf(0, sid)), sid) == r
  {
  }

  /** One call from an idle shape to an idle shape. */
  lemma CallRunsThrough(c: Call, sid: nat, a: Shape, b: Shape) returns (s: seq<nat>)
    requires Idle(a) && Idle(b) && forall i :: 0 <= i < 3 ==> a.todo[i] == Comm(Script(c, i, sid)) + b.todo[i]
    ensures ShapeRuns(a, s, b)
  {
    var p := PartyOf(0, sid);
    var a', b' := Turn(a, p), Turn(b, p);
    forall r | 0 <= r < 3
      ensures a'.todo[r] == RoleComm(c, r) + b'.todo[r]
    {
      RotationMatches(r, sid);
      CommOfCall(c, Player(r, p), sid);
    }
    var t := RoleRuns(c, a', b');
    s := TurnRuns(a, p, t, b);
  }

  function CommTrace(calls: seq<Call>, i: nat, sid: nat): (es: seq<Event>)
    requires i < 3
    ensures Communicates(es)
  {
    Comm(Trace(calls, i, sid))
  }

  lemma CommTraceAppend(calls: seq<Call>, c: Call, i: nat, sid: nat)
    requires i < 3
    ensures CommTrace(calls + [c], i, sid) == CommTrace(calls, i, sid) + Comm(Script(c, i, sid))
  {
    TraceAppend(calls, c, i, sid);
    CommAppend(Trace(calls, i, sid), Script(c, i, sid));
  }

  function Ready(calls: seq<Call>, sid: nat, b: Shape): (a: Shape)
    requires FormedShape(b)
    ensures FormedShape(a) && a.lens == b.lens
    ensures forall i :: 0 <= i < 3 ==> a.todo[i] == CommTrace(calls, i, sid) + b.todo[i]
  {
    Shape(seq(3, i requires 0 <= i < 3 => CommTrace(calls, i, sid) + b.todo[i]), b.lens)
  }

  function BeforeCall(c: Call, sid: nat, b: Shape): (a: Shape)
    requires FormedShape(b)
    ensures FormedShape(a) && a.lens == b.lens
    ensures forall i :: 0 <= i < 3 ==> a.todo[i] == Comm(Script(c, i, sid)) + b.todo[i]
  {
    Shape(seq(3, i requires 0 <= i < 3 => Comm(Script(c, i, sid)) + b.todo[i]), b.lens)
  }

  lemma {:induction false} AllCallsRun(calls: seq<Call>, sid: nat, b: Shape) returns (s: seq<nat>)
    requires Idle(b)
    ensures ShapeRuns(Ready(calls, sid, b), s, b)
  {
    if calls == [] {
      s := [];
      CallRuns.SameShape(Ready(calls, sid, b), b);
    } else {
      var n := |calls| - 1;
      var init, c := calls[..n], calls[n];
      assert calls == init + [c];
      var mid := BeforeCall(c, sid, b);
      assert Idle(mid);
      var last := CallRunsThrough(c, sid, mid, b);
      var first := AllCallsRun(init, sid, mid);
      ReadyAgain(calls, init, c, sid, b, mid);
      RunsAppend(Ready(init, sid, mid), first, mid, last, b);
      s := first + last;
    }
  }

  lemma ReadyTodo(init: seq<Call>, c: Call, sid: nat, rest: seq<Event>, i: nat)
    requires i < 3
    ensures CommTrace(init + [c], i, sid) + rest == CommTrace(init, i, sid) + (Comm(Script(c, i, sid)) + rest)
  {
    CommTraceAppend(init, c, i, sid);
    Associates(CommTrace(init, i, sid), Comm(Script(c, i, sid)), rest);
  }

  lemma Associates(x: seq<Event>, y: seq<Event>, z: seq<Event>)
    ensures (x + y) + z == x + (y + z)
  {
  }

  lemma ReadyAt(calls: seq<Call>, init: seq<Call>, c: Call, sid: nat, b: Shape, mid: Shape, i: nat)
    requires FormedShape(b) && calls == init + [c] && mid == BeforeCall(c, sid, b) && i < 3
    ensures Ready(calls, sid, b).todo[i] == Ready(init, sid, mid).todo[i]
  {
    ReadyTodo(init, c, sid, b.todo[i], i);
    assert mid.todo[i] == Comm(Script(c, i, sid)) + b.todo[i];
  }

  lemma ReadyAgain(calls: seq<Call>, init: seq<Call>, c: Call, sid: nat, b: Shape, mid: Shape)
    requires FormedShape(b) && calls == init + [c] && mid == BeforeCall(c, sid, b)
    ensures Ready(calls, sid, b) == Ready(init, sid, mid)
  {
    var x, y := Ready(calls, sid, b), Ready(init, sid, mid);
    forall i | 0 <= i < 3
      ensures x.todo[i] == y.todo[i]
    {
      ReadyAt(calls, init, c, sid, b, mid, i);
    }
    assert x.todo == y.todo && x.lens == y.lens;
  }

  // ----- the main results ------------------------------------------------------------------------------------

  /** Three parties about to run the same calls over empty channels. */
  function Start<P>(calls: seq<Call>, sid: nat): (s: Config<P>)
    ensures Formed(s)
  {
    Config([[], [], []], [CommTrace(calls, 0, sid), CommTrace(calls, 1, sid), CommTrace(calls, 2, sid)],
           [[], [], [], [], [], []])
  }

  ghost predicate Finished<P>(s: Config<P>) {
    && Formed(s) && s.todo[0] == [] && s.todo[1] == [] && s.todo[2] == []
    && forall k :: 0 <= k < 6 ==> s.queue[k] == []
  }

  const DONE: Shape := Shape([[], [], []], [[], [], [], [], [], []])

  lemma StartTodo<P>(calls: seq<Call>, sid: nat, i: nat)
    requires i < 3 && FormedShape(DONE)
    ensures Start<P>(calls, sid).todo[i] == Ready(calls, sid, DONE).todo[i]
  {
    assert DONE.todo[i] == [];
  }

  lemma StartLens<P>(calls: seq<Call>, sid: nat, k: nat)
    requires k < 6
    ensures ShapeOf(Start<P>(calls, sid)).lens[k] == DONE.lens[k]
  {
  }

  lemma StartIsReady<P>(calls: seq<Call>, sid: nat)
    ensures FormedShape(DONE) && ShapeOf(Start<P>(calls, sid)) == Ready(calls, sid, DONE)
  {
    var a, b := ShapeOf(Start<P>(calls, sid)), Ready(calls, sid, DONE);
    forall i | 0 <= i < 3
      ensures a.todo[i] == b.todo[i]
    {
      StartTodo<P>(calls, sid, i);
    }
    forall k | 0 <= k < 6
      ensures a.lens[k] == b.lens[k]
    {
      StartLens<P>(calls, sid, k);
    }
    assert a.todo == b.todo && a.lens == b.lens;
  }

  lemma DoneIsFinished<P>(t: Config<P>)
    requires Formed(t) && ShapeOf(t) == DONE
    ensures Finished(t) && Stuck(t)
  {
    assert t.todo == DONE.todo;
    forall k | 0 <= k < 6
      ensures t.queue[k] == []
    {
      assert LensOf(t.queue[k]) == ShapeOf(t).lens[k] == DONE.lens[k] == [];
    }
  }

  /** Some schedule finishes all calls. */
  lemma SomeScheduleFinishes<P>(calls: seq<Call>, sid: nat, f: (nat, seq<Memory<P>>) -> P)
    returns (s: seq<nat>, t: Config<P>)
    ensures Runs(Start<P>(calls, sid), s, t, f) && Finished(t) && Stuck(t)
  {
    StartIsReady<P>(calls, sid);
    assert Idle(DONE);
    s := AllCallsRun(calls, sid, DONE);
    t := Lift(Start<P>(calls, sid), s, DONE, f);
    DoneIsFinished(t);
  }

  /** For every call sequence and payload function there is one final state, with empty channels, that
      every partial run leads to; so no reachable state but that one is stuck. */
  lemma EveryInterleaving<P>(calls: seq<Call>, sid: nat, f: (nat, seq<Memory<P>>) -> P) returns (t: Config<P>)
    ensures Finished(t)
    ensures forall taken: seq<nat>, u: Config<P> :: Formed(u) && Runs(Start<P>(calls, sid), taken, u, f) ==>
      CanFinish(u, t, f) && (Stuck(u) ==> u == t)
  {
    var s;
    s, t := SomeScheduleFinishes<P>(calls, sid, f);
    forall taken: seq<nat>, u: Config<P> | Formed(u) && Runs(Start<P>(calls, sid), taken, u, f)
      ensures Stuck(u) ==> u == t
      ensures CanFinish(u, t, f)
    {
      var rest := EveryRunCompletes(Start<P>(calls, sid), s, t, taken, u, f);
      if Stuck(u) {
        OnlyFinalIsStuck(Start<P>(calls, sid), s, t, taken, u, f);
      }
    }
  }

  ghost predicate CanFinish<P>(u: Config<P>, t: Config<P>, f: (nat, seq<Memory<P>>) -> P)
    requires Formed(u)
  {
    exists rest: seq<nat> :: Runs(u, rest, t, f)
  }

  // ----- generators -----------------------------------------------------------------------------------------------

  function Mine(es: seq<Event>): (ds: seq<Draw>) {
    if es == [] then [] else (if es[0].DrewMine? then [es[0].draw] else []) + Mine(es[1..])
  }

  function Prev(es: seq<Event>): (ds: seq<Draw>) {
    if es == [] then [] else (if es[0].DrewPrev? then [es[0].draw] else []) + Prev(es[1..])
  }

  lemma {:induction false} MineAppend(x: seq<Event>, y: seq<Event>)
    ensures Mine(x + y) == Mine(x) + Mine(y)
  {
    if x == [] {
      assert x + y == y;
    } else {
      assert (x + y)[0] == x[0] && (x + y)[1..] == x[1..] + y;
      MineAppend(x[1..], y);
    }
  }

  lemma {:induction false} PrevAppend(x: seq<Event>, y: seq<Event>)
    ensures Prev(x + y) == Prev(x) + Prev(y)
  {
    if x == [] {
      assert x + y == y;
    } else {
      assert (x + y)[0] == x[0] && (x + y)[1..] == x[1..] + y;
      PrevAppend(x[1..], y);
    }
  }

  lemma DrawsAppend(x: seq<Event>, y: seq<Event>)
    ensures Mine(x + y) == Mine(x) + Mine(y) && Prev(x + y) == Prev(x) + Prev(y)
  {
    MineAppend(x, y);
    PrevAppend(x, y);
  }

  lemma DrawOne(e: Event)
    ensures Mine([e]) == if e.DrewMine? then [e.draw] else []
    ensures Prev([e]) == if e.DrewPrev? then [e.draw] else []
  {
    assert [e][1..] == [];
  }

  lemma DrawsOfTwo(a: Event, b: Event)
    ensures Mine([a, b]) == Mine([a]) + Mine([b]) && Prev([a, b]) == Prev([a]) + Prev([b])
  {
    assert [a, b] == [a] + [b];
    DrawsAppend([a], [b]);
  }

  lemma DrawsOfFour(a: Event, b: Event, c: Event, d: Event)
    ensures Mine([a, b, c, d]) == Mine([a]) + Mine([b]) + Mine([c]) + Mine([d])
    ensures Prev([a, b, c, d]) == Prev([a]) + Prev([b]) + Prev([c]) + Prev([d])
  {
    var x, y := [a, b], [c, d];
    DrawsOfTwo(a, b);
    DrawsOfTwo(c, d);
    DrawsAppend(x, y);
    assert x + y == [a, b, c, d];
    Regrouped(Mine([a]), Mine([b]), Mine([c]), Mine([d]));
    Regrouped(Prev([a]), Prev([b]), Prev([c]), Prev([d]));
  }

  lemma Regrouped(a: seq<Draw>, b: seq<Draw>, c: seq<Draw>, d: seq<Draw>)
    ensures (a + b) + (c + d) == a + b + c + d
  {
  }

  /** What role r draws from its own generator, and from the one shared with the previous party. */
  function RoleDraws(c: Call, r: nat, mine: bool): (ds: seq<Draw>)
    requires r < 3
  {
    match c
    case And(n) => [Fill(1, n)]
    case Reshare(k, n) => [Fill(k, n)]
    case Reveal(_) => []
    case ZeroShares(k, n) => [Each(k, n)]
    case Broadcast(_) => []
    case Split(k, n) => if n == 0 then [] else [Each(k, Piece(n, if !mine then r else if r == 2 then 0 else r + 1))]
    case Inject(k, n) => [Fill(k, n)]
    case Shuffle(k, count, batch) =>
      var short := if mine then r == 1 else r == 2;
      [Permutation(batch), Each(k, 3 * count)] + if short then [] else [Each(k, 3 * count)]
  }

  lemma ChunkDraws(k: nat, len: nat, r: nat, chunk: nat)
    requires r < 3 && chunk < 3
    ensures var d := [Each(k, Piece(len, chunk))]; var es := SplitChunkScript(k, len, r, chunk);
      && Prev(es) == (if chunk == r then d else [])
      && Mine(es) == (if chunk == r || (chunk + 1) % 3 == r then [] else d)
  {
    var n := Piece(len, chunk);
    DrawsOfTwo(DrewPrev(Each(k, n)), SentNext(n));
    DrawOne(DrewPrev(Each(k, n)));
    DrawOne(SentNext(n));
    DrawOne(GotPrev(n));
    DrawOne(DrewMine(Each(k, n)));
  }

  lemma SplitDraws(k: nat, len: nat, r: nat)
    requires r < 3
    ensures Mine(SplitScript(k, len, r)) == RoleDraws(Split(k, len), r, true)
    ensures Prev(SplitScript(k, len, r)) == RoleDraws(Split(k, len), r, false)
  {
    if len > 0 {
      var x, y, z := SplitChunkScript(k, len, r, 0), SplitChunkScript(k, len, r, 1), SplitChunkScript(k, len, r, 2);
      DrawsAppend(x + y, z);
      DrawsAppend(x, y);
      ChunkDraws(k, len, r, 0);
      ChunkDraws(k, len, r, 1);
      ChunkDraws(k, len, r, 2);
    }
  }

  lemma InjectDraws(k: nat, n: nat, r: nat)
    requires r < 3
    ensures Mine(InjectScript(k, n, r)) == [Fill(k, n)] && Prev(InjectScript(k, n, r)) == [Fill(k, n)]
  {
    var dm, dp, s, g := DrewMine(Fill(k, n)), DrewPrev(Fill(k, n)), SentNext(n), GotPrev(n);
    DrawOne(dm); DrawOne(dp); DrawOne(s); DrawOne(g);
    if r == 0 {
      DrawsOfFour(dm, dp, s, g);
    } else if r == 1 {
      DrawsOfFour(dp, s, g, dm);
    } else {
      DrawsOfFour(g, dm, dp, s);
    }
  }

  lemma SetupDraws(k: nat, n: nat, batch: nat)
    ensures Mine(SetupEvents(k, n, batch)) == [Permutation(batch), Each(k, n)]
    ensures Prev(SetupEvents(k, n, batch)) == [Permutation(batch), Each(k, n)]
  {
    var pm, pp, em, ep := DrewMine(Permutation(batch)), DrewPrev(Permutation(batch)), DrewMine(Each(k, n)),
                          DrewPrev(Each(k, n));
    DrawsOfFour(pm, pp, em, ep);
    DrawOne(pm); DrawOne(pp); DrawOne(em); DrawOne(ep);
  }

  /** The draws of the three roles after the setup. */
  lemma LateDraws0(k: nat, n: nat)
    ensures Mine([SentNext(n), DrewMine(Each(k, n)), DrewPrev(Each(k, n))]) == [Each(k, n)]
    ensures Prev([SentNext(n), DrewMine(Each(k, n)), DrewPrev(Each(k, n))]) == [Each(k, n)]
  {
    var sn, em, ep := SentNext(n), DrewMine(Each(k, n)), DrewPrev(Each(k, n));
    DrawOne(sn); DrawOne(em); DrawOne(ep);
    DrawsOfTwo(em, ep);
    DrawsAppend([sn], [em, ep]);
    assert [sn] + [em, ep] == [sn, em, ep];
  }

  lemma LateDraws1(k: nat, n: nat)
    ensures Mine([SentNext(n), GotPrev(n), DrewPrev(Each(k, n)), SentNext(n), GotNext(n)]) == []
    ensures Prev([SentNext(n), GotPrev(n), DrewPrev(Each(k, n)), SentNext(n), GotNext(n)]) == [Each(k, n)]
  {
    var sn, gp, gn, ep := SentNext(n), GotPrev(n), GotNext(n), DrewPrev(Each(k, n));
    DrawOne(sn); DrawOne(gp); DrawOne(gn); DrawOne(ep);
    DrawsOfFour(sn, gp, ep, sn);
    DrawsAppend([sn, gp, ep, sn], [gn]);
    assert [sn, gp, ep, sn] + [gn] == [sn, gp, ep, sn, gn];
  }

  lemma LateDraws2(k: nat, n: nat)
    ensures Mine([GotPrev(n), DrewMine(Each(k, n)), SentPrev(n), GotPrev(n)]) == [Each(k, n)]
    ensures Prev([GotPrev(n), DrewMine(Each(k, n)), SentPrev(n), GotPrev(n)]) == []
  {
    var gp, em, sp := GotPrev(n), DrewMine(Each(k, n)), SentPrev(n);
    DrawOne(gp); DrawOne(em); DrawOne(sp);
    DrawsOfFour(gp, em, sp, gp);
  }

  lemma ShuffleDraws(k: nat, count: nat, batch: nat, r: nat)
    requires r < 3
    ensures Mine(ShuffleScript(k, count, batch, r)) == RoleDraws(Shuffle(k, count, batch), r, true)
    ensures Prev(ShuffleScript(k, count, batch, r)) == RoleDraws(Shuffle(k, count, batch), r, false)
  {
    var n := 3 * count;
    var setup, script := SetupEvents(k, n, batch), ShuffleScript(k, count, batch, r);
    assert script == setup + script[4..];
    DrawsAppend(setup, script[4..]);
    SetupDraws(k, n, batch);
    if r == 0 {
      LateDraws0(k, n);
      assert script[4..] == [SentNext(n), DrewMine(Each(k, n)), DrewPrev(Each(k, n))];
    } else if r == 1 {
      LateDraws1(k, n);
      assert script[4..] == [SentNext(n), GotPrev(n), DrewPrev(Each(k, n)), SentNext(n), GotNext(n)];
    } else {
      LateDraws2(k, n);
      assert script[4..] == [GotPrev(n), DrewMine(Each(k, n)), SentPrev(n), GotPrev(n)];
    }
  }

  lemma FourDraws(d: Draw, n: nat)
    ensures Mine([DrewMine(d), DrewPrev(d), SentNext(n), GotPrev(n)]) == [d]
    ensures Prev([DrewMine(d), DrewPrev(d), SentNext(n), GotPrev(n)]) == [d]
  {
    DrawsOfFour(DrewMine(d), DrewPrev(d), SentNext(n), GotPrev(n));
    DrawOne(DrewMine(d)); DrawOne(DrewPrev(d)); DrawOne(SentNext(n)); DrawOne(GotPrev(n));
  }

  lemma CallDraws(c: Call, i: nat, sid: nat)
    requires i < 3
    ensures Mine(Script(c, i, sid)) == RoleDraws(c, Rotated(i, sid), true)
    ensures Prev(Script(c, i, sid)) == RoleDraws(c, Rotated(i, sid), false)
  {
    match c
    case And(n) => FourDraws(Fill(1, n), n);
    case Reshare(k, n) => FourDraws(Fill(k, n), n);
    case Reveal(n) => DrawsOfTwo(SentNext(n), GotPrev(n)); DrawOne(SentNext(n)); DrawOne(GotPrev(n));
    case ZeroShares(k, n) => DrawsOfTwo(DrewMine(Each(k, n)), DrewPrev(Each(k, n))); DrawOne(DrewMine(Each(k, n)));
    DrawOne(DrewPrev(Each(k, n)));
    case Broadcast(n) => DrawsOfFour(SentNext(n), SentPrev(n), GotPrev(n), GotNext(n));
      DrawOne(SentNext(n)); DrawOne(SentPrev(n)); DrawOne(GotPrev(n)); DrawOne(GotNext(n));
    case Split(k, n) => SplitDraws(k, n, Rotated(i, sid));
    case Inject(k, n) => InjectDraws(k, n, Rotated(i, sid));
    case Shuffle(k, count, batch) => ShuffleDraws(k, count, batch, Rotated(i, sid));
  }

  lemma CallInStep(c: Call, i: nat, sid: nat)
    requires i < 3
    ensures Mine(Script(c, i, sid)) == Prev(Script(c, After(i), sid))
  {
    CallDraws(c, i, sid);
    CallDraws(c, After(i), sid);
    var r, r' := Rotated(i, sid), Rotated(After(i), sid);
    assert r' == if r == 2 then 0 else r + 1;
  }

  /** After any sequence of calls both holders of a key have made the same draws from it. */
  lemma {:induction false} GeneratorsInStep(calls: seq<Call>, i: nat, sid: nat)
    requires i < 3
    ensures Mine(Trace(calls, i, sid)) == Prev(Trace(calls, After(i), sid))
  {
    if calls != [] {
      var n := |calls| - 1;
      GeneratorsInStep(calls[..n], i, sid);
      CallInStep(calls[n], i, sid);
      DrawsAppend(Trace(calls[..n], i, sid), Script(calls[n], i, sid));
      DrawsAppend(Trace(calls[..n], After(i), sid), Script(calls[n], After(i), sid));
    }
  }
}
