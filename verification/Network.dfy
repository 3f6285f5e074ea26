/** The three parties' sessions: correlated randomness and FIFO channels.

    Key i is known to party i (its "my" generator) and to party i+1 (its "prev" generator).
    What a generator returns depends on the key and on the draws made from it so far, so two
    holders see the same values exactly as long as they have made the same draws. */
module Sessions {
  import opened Words
  import Prf

  /** A request to a generator: a bulk fill, an element-by-element loop, or a permutation. */
  datatype Draw =
    | Fill(width: nat, len: nat)
    | Each(width: nat, len: nat)
    | Permutation(size: nat)

  datatype Message = Elements(values: seq<nat>) | Lanes(bits: seq<bool>)

  function Len(m: Message): (r: nat) {
    match m case Elements(v) => |v| case Lanes(b) => |b|
  }

  /** What a party does to its generators and channels. */
  datatype Event =
    | DrewMine(draw: Draw)
    | DrewPrev(draw: Draw)
    | SentNext(len: nat)
    | SentPrev(len: nat)
    | GotPrev(len: nat)
    | GotNext(len: nat)

  /** The primitive protocols; everything else is a sequence of these. */
  datatype Call =
    | And(len: nat)
    | Split(width: nat, len: nat)
    | Inject(width: nat, len: nat)
    | Reshare(width: nat, len: nat)
    | Reveal(len: nat)
    | ZeroShares(width: nat, len: nat)
    | Broadcast(len: nat)
    | Shuffle(width: nat, count: nat, batch: nat)

  /** Lengths of the three pieces the split protocol cuts its input into. */
  function Piece(len: nat, chunk: nat): (r: nat)
    requires chunk < 3
    ensures chunk == 2 ==> Piece(len, 0) + Piece(len, 1) + r == len
  {
    if chunk == 0 then len / 3
    else if chunk == 1 then (len - len / 3) / 2
    else len - len / 3 - (len - len / 3) / 2
  }

  /** The pieces are as even as they can be, the larger ones last. */
  lemma PiecesEven(k: nat, m: nat)
    requires m < 3
    ensures var len := 3 * k + m; Piece(len, 0) == k && Piece(len, 1) == k + m / 2 && Piece(len, 2) == k + (m + 1) / 2
  {
    var len := 3 * k + m;
    assert len / 3 == k && len - k == 2 * k + m;
    assert (2 * k + m) / 2 == k + m / 2;
  }

  /** The role party i plays in a protocol rotated by the session id: (i + sid) mod 3. */
  function Rotated(i: nat, sid: nat): (r: nat)
    requires i < 3
    ensures r < 3 && r == (i + sid) % 3
  {
    var s := sid % 3;
    if i + s < 3 then i + s else i + s - 3
  }

  /** The party that plays role r. */
  function PartyOf(r: nat, sid: nat): (i: nat)
    requires r < 3
    ensures i < 3 && Rotated(i, sid) == r
  {
    var s := sid % 3;
    if r >= s then r - s else r + 3 - s
  }

  /** What the party with rotated role r does for one chunk of the split protocol. */
  function SplitChunkScript(k: nat, len: nat, r: nat, chunk: nat): (s: seq<Event>)
    requires r < 3 && chunk < 3
  {
    var n := Piece(len, chunk);
    if chunk == r then [DrewPrev(Each(k, n)), SentNext(n)]
    else if (chunk + 1) % 3 == r then [GotPrev(n)]
    else [DrewMine(Each(k, n))]
  }

  function SplitScript(k: nat, len: nat, r: nat): (s: seq<Event>)
    requires r < 3
  {
    if len == 0 then []
    else SplitChunkScript(k, len, r, 0) + SplitChunkScript(k, len, r, 1) + SplitChunkScript(k, len, r, 2)
  }

  function InjectScript(k: nat, n: nat, r: nat): (s: seq<Event>)
    requires r < 3
  {
    if r == 0 then [DrewMine(Fill(k, n)), DrewPrev(Fill(k, n)), SentNext(n), GotPrev(n)]
    else if r == 1 then [DrewPrev(Fill(k, n)), SentNext(n), GotPrev(n), DrewMine(Fill(k, n))]
    else [GotPrev(n), DrewMine(Fill(k, n)), DrewPrev(Fill(k, n)), SentNext(n)]
  }

  function ShuffleScript(k: nat, count: nat, batch: nat, r: nat): (s: seq<Event>)
    requires r < 3
  {
    var n := 3 * count;
    var setup := [DrewMine(Permutation(batch)), DrewPrev(Permutation(batch)),
                  DrewMine(Each(k, n)), DrewPrev(Each(k, n))];
    setup +
    if r == 0 then [SentNext(n), DrewMine(Each(k, n)), DrewPrev(Each(k, n))]
    else if r == 1 then [SentNext(n), GotPrev(n), DrewPrev(Each(k, n)), SentNext(n), GotNext(n)]
    else [GotPrev(n), DrewMine(Each(k, n)), SentPrev(n), GotPrev(n)]
  }

  /** The events of party i in one call. */
  function Script(c: Call, i: nat, sid: nat): (s: seq<Event>)
    requires i < 3
  {
    match c
    case And(n) => [DrewMine(Fill(1, n)), DrewPrev(Fill(1, n)), SentNext(n), GotPrev(n)]
    case Split(k, n) => SplitScript(k, n, Rotated(i, sid))
    case Inject(k, n) => InjectScript(k, n, Rotated(i, sid))
    case Reshare(k, n) => [DrewMine(Fill(k, n)), DrewPrev(Fill(k, n)), SentNext(n), GotPrev(n)]
    case Reveal(n) => [SentNext(n), GotPrev(n)]
    case ZeroShares(k, n) => [DrewMine(Each(k, n)), DrewPrev(Each(k, n))]
    case Broadcast(n) => [SentNext(n), SentPrev(n), GotPrev(n), GotNext(n)]
    case Shuffle(k, count, batch) => ShuffleScript(k, count, batch, Rotated(i, sid))
  }

  /** The events of party i over a whole sequence of calls. */
  function Trace(calls: seq<Call>, i: nat, sid: nat): (s: seq<Event>)
    requires i < 3
  {
    if calls == [] then []
    else Trace(calls[..|calls| - 1], i, sid) + Script(calls[|calls| - 1], i, sid)
  }

  lemma TraceAppend(calls: seq<Call>, c: Call, i: nat, sid: nat)
    requires i < 3
    ensures Trace(calls + [c], i, sid) == Trace(calls, i, sid) + Script(c, i, sid)
  {
    assert (calls + [c])[..|calls|] == calls;
  }

  function Residue(x: nat, width: nat): (r: nat)
    ensures r < Pow2(width)
  {
    x % Pow2(width)
  }

  /** One value per party. */
  datatype Trio<T> = Trio(p0: T, p1: T, p2: T) {
    function At(i: nat): (r: T)
      requires i < 3
    {
      if i == 0 then p0 else if i == 1 then p1 else p2
    }

    function With(i: nat, v: T): (r: Trio<T>)
      requires i < 3
    {
      if i == 0 then Trio(v, p1, p2) else if i == 1 then Trio(p0, v, p2) else Trio(p0, p1, v)
    }
  }

  /** The neighbours of party i on the ring of parties. */
  function Before(i: nat): (r: nat)
    requires i < 3
    ensures r < 3
  {
    if i == 0 then 2 else i - 1
  }

  function After(i: nat): (r: nat)
    requires i < 3
    ensures r < 3 && Before(r) == i
  {
    if i == 2 then 0 else i + 1
  }

  predicate Drained(queues: Trio<seq<Message>>) {
    |queues.p0| == |queues.p1| == |queues.p2| == 0
  }

  /** The successor of role 0 plays role 1, its predecessor role 2. */
  lemma OtherRoles(sid: nat)
    ensures var p := PartyOf(0, sid); Rotated(After(p), sid) == 1 && Rotated(Before(p), sid) == 2
  {
  }

  // ----- what happened on the channels ------------------------------------------------------------

  predicate IsSend(e: Event) {
    e.SentNext? || e.SentPrev?
  }

  predicate IsReceive(e: Event) {
    e.GotPrev? || e.GotNext?
  }

  predicate Communicates(es: seq<Event>) {
    forall x :: 0 <= x < |es| ==> IsSend(es[x]) || IsReceive(es[x])
  }

  /** Drawing and computing happen inside a party; what is left is its sends and receives. */
  function Comm(es: seq<Event>): (r: seq<Event>)
    ensures Communicates(r)
  {
    if es == [] then []
    else
      var (init, e) := (es[..|es| - 1], es[|es| - 1]);
      Comm(init) + if IsSend(e) || IsReceive(e) then [e] else []
  }

  /** What a party remembers of a communication event. */
  datatype Memory<P> = Sent(e: Event, payload: P) | Received(e: Event, payload: P)

  /** Party i sent or received; next and back are the queues afterwards. */
  datatype Step = Step(i: nat, what: Memory<Message>, next: Trio<seq<Message>>, back: Trio<seq<Message>>)

  /** Everything that happened on the channels, in order. */
  type Run = seq<Step>

  function NextAt(run: Run, x: nat): (r: Trio<seq<Message>>)
    requires x <= |run|
  {
    if x == 0 then Trio([], [], []) else run[x - 1].next
  }

  function BackAt(run: Run, x: nat): (r: Trio<seq<Message>>)
    requires x <= |run|
  {
    if x == 0 then Trio([], [], []) else run[x - 1].back
  }

  /** A send appends to a queue, a receive takes the front of one. */
  predicate Moves(i: nat, what: Memory<Message>, next: Trio<seq<Message>>, back: Trio<seq<Message>>,
                  next': Trio<seq<Message>>, back': Trio<seq<Message>>)
    requires i < 3
  {
    var x := what.payload;
    match what.e
    case SentNext(n) => what.Sent? && n == Len(x) && next' == next.With(i, next.At(i) + [x]) && back' == back
    case SentPrev(n) => what.Sent? && n == Len(x) && back' == back.With(i, back.At(i) + [x]) && next' == next
    case GotPrev(n) =>
      var q := next.At(Before(i));
      what.Received? && n == Len(x) && q != [] && q[0] == x && next' == next.With(Before(i), q[1..]) && back' == back
    case GotNext(n) =>
      var q := back.At(After(i));
      what.Received? && n == Len(x) && q != [] && q[0] == x && back' == back.With(After(i), q[1..]) && next' == next
    case _ => false
  }

  predicate LegalAt(run: Run, x: nat)
    requires x < |run|
  {
    run[x].i < 3 && Moves(run[x].i, run[x].what, NextAt(run, x), BackAt(run, x), run[x].next, run[x].back)
  }

  /** What party i remembers of the run. */
  function MemoryOf(run: Run, i: nat): (r: seq<Memory<Message>>) {
    if run == [] then []
    else
      var (init, s) := (run[..|run| - 1], run[|run| - 1]);
      MemoryOf(init, i) + if s.i == i then [s.what] else []
  }

  lemma MemorySnoc(run: Run, s: Step, i: nat)
    ensures MemoryOf(run + [s], i) == MemoryOf(run, i) + if s.i == i then [s.what] else []
  {
    assert (run + [s])[..|run|] == run;
  }

  function EventsOf<P>(memory: seq<Memory<P>>): (r: seq<Event>)
    ensures |r| == |memory| && forall x :: 0 <= x < |r| ==> r[x] == memory[x].e
  {
    seq(|memory|, x requires 0 <= x < |memory| => memory[x].e)
  }

  lemma EventsSnoc<P>(memory: seq<Memory<P>>, m: Memory<P>)
    ensures EventsOf(memory + [m]) == EventsOf(memory) + [m.e]
  {
  }

  lemma CommSnoc(es: seq<Event>, e: Event)
    ensures Comm(es + [e]) == Comm(es) + if IsSend(e) || IsReceive(e) then [e] else []
  {
    assert (es + [e])[..|es|] == es;
  }

  /** Party i remembers exactly the communication it logged. */
  ghost predicate Remembers(run: Run, log: Trio<seq<Event>>, i: nat)
    requires i < 3
  {
    EventsOf(MemoryOf(run, i)) == Comm(log.At(i))
  }

  /** The last thing party i did was to receive m. */
  ghost predicate Got(run: Run, i: nat, m: Message) {
    var memory := MemoryOf(run, i);
    memory != [] && memory[|memory| - 1].Received? && memory[|memory| - 1].payload == m
  }

  lemma GotSnoc(run: Run, s: Step, i: nat, m: Message)
    requires if s.i == i then s.what.Received? && s.what.payload == m else Got(run, i, m)
    ensures Got(run + [s], i, m)
  {
    MemorySnoc(run, s, i);
  }

  /** Every step of the run was possible, the run led to these queues, and the parties remember it. */
  ghost predicate Recorded(run: Run, log: Trio<seq<Event>>, next: Trio<seq<Message>>, back: Trio<seq<Message>>) {
    && (forall x {:trigger LegalAt(run, x)} :: 0 <= x < |run| ==> LegalAt(run, x))
    && NextAt(run, |run|) == next && BackAt(run, |run|) == back
    && forall i {:trigger Remembers(run, log, i)} :: 0 <= i < 3 ==> Remembers(run, log, i)
  }

  /** A draw leaves no trace on the channels. */
  lemma RecordDraw(run: Run, log: Trio<seq<Event>>, next: Trio<seq<Message>>, back: Trio<seq<Message>>, i: nat,
                   e: Event)
    requires i < 3 && Recorded(run, log, next, back) && !IsSend(e) && !IsReceive(e)
    ensures Recorded(run, log.With(i, log.At(i) + [e]), next, back)
  {
    var log' := log.With(i, log.At(i) + [e]);
    forall j | 0 <= j < 3
      ensures Remembers(run, log', j)
    {
      assert Remembers(run, log, j);
      RememberDraw(run, log, i, e, j);
    }
  }

  lemma RememberDraw(run: Run, log: Trio<seq<Event>>, i: nat, e: Event, j: nat)
    requires i < 3 && j < 3 && Remembers(run, log, j) && !IsSend(e) && !IsReceive(e)
    ensures Remembers(run, log.With(i, log.At(i) + [e]), j)
  {
    if i == j {
      CommSnoc(log.At(i), e);
    }
  }

  lemma RememberStep(run: Run, log: Trio<seq<Event>>, s: Step, j: nat)
    requires s.i < 3 && j < 3 && Remembers(run, log, j) && (IsSend(s.what.e) || IsReceive(s.what.e))
    ensures Remembers(run + [s], log.With(s.i, log.At(s.i) + [s.what.e]), j)
  {
    if s.i == j {
      RememberOwn(run, log.At(j), s);
    } else {
      MemorySnoc(run, s, j);
    }
  }

  lemma RememberOwn(run: Run, log: seq<Event>, s: Step)
    requires EventsOf(MemoryOf(run, s.i)) == Comm(log) && (IsSend(s.what.e) || IsReceive(s.what.e))
    ensures EventsOf(MemoryOf(run + [s], s.i)) == Comm(log + [s.what.e])
  {
    MemorySnoc(run, s, s.i);
    CommSnoc(log, s.what.e);
    EventsSnoc(MemoryOf(run, s.i), s.what);
  }

  lemma RecordStep(run: Run, log: Trio<seq<Event>>, next: Trio<seq<Message>>, back: Trio<seq<Message>>, s: Step)
    requires s.i < 3 && Recorded(run, log, next, back) && Moves(s.i, s.what, next, back, s.next, s.back)
    ensures Recorded(run + [s], log.With(s.i, log.At(s.i) + [s.what.e]), s.next, s.back)
  {
    forall x | 0 <= x < |run + [s]|
      ensures LegalAt(run + [s], x)
    {
      if x < |run| {
        assert LegalAt(run, x);
      }
    }
    forall j | 0 <= j < 3
      ensures Remembers(run + [s], log.With(s.i, log.At(s.i) + [s.what.e]), j)
    {
      assert Remembers(run, log, j);
      RememberStep(run, log, s, j);
    }
  }

  class Network {
    const sid: nat
    /** key, draws made before, index within the draw -> raw value */
    const stream: (nat, seq<Draw>, nat) -> nat

    var mine: Trio<seq<Draw>>
    var prev: Trio<seq<Draw>>
    /** next[i] holds what party i sent to party i+1 and is not yet received; back[i] to i-1. */
    var next: Trio<seq<Message>>
    var back: Trio<seq<Message>>
    ghost var log: Trio<seq<Event>>
    ghost var run: Run
    ghost var calls: seq<Call>

    /** The record agrees with the channels and the logs. */
    ghost predicate Sound()
      reads this
    {
      Recorded(run, log, next, back)
    }

    ghost predicate InStep()
      reads this
    {
      mine.p0 == prev.p1 && mine.p1 == prev.p2 && mine.p2 == prev.p0
    }

    /** Between calls: channels empty, generators in step, and every party has done exactly
        what the calls so far prescribe. */
    ghost predicate Quiet()
      reads this
    {
      && InStep() && Drained(next) && Drained(back) && Sound()
      && log.p0 == Trace(calls, 0, sid)
      && log.p1 == Trace(calls, 1, sid)
      && log.p2 == Trace(calls, 2, sid)
    }

    constructor (sid: nat, stream: (nat, seq<Draw>, nat) -> nat)
      ensures Quiet() && calls == [] && this.sid == sid
      ensures this.stream == stream
    {
      this.sid := sid;
      this.stream := stream;
      mine, prev := Trio([], [], []), Trio([], [], []);
      next, back := Trio([], [], []), Trio([], [], []);
      log := Trio([], [], []);
      run := [];
      calls := [];
    }

    /** The ring elements a draw returns. */
    function Values(key: nat, history: seq<Draw>, width: nat, len: nat): (r: seq<nat>)
      ensures |r| == len
      ensures forall j {:trigger r[j]} :: 0 <= j < len ==> r[j] < Pow2(width)
    {
      var r := seq<nat>(len, (j: int) requires 0 <= j < len => Residue(stream(key, history, j), width));
      assert forall j :: 0 <= j < len ==> r[j] == Residue(stream(key, history, j), width);
      r
    }

    function Coins(key: nat, history: seq<Draw>, len: nat): (r: seq<bool>)
      ensures |r| == len
    {
      seq(len, j requires 0 <= j => stream(key, history, j) % 2 == 1)
    }

    /** The index choices behind a drawn permutation. */
    function Choices(key: nat, history: seq<Draw>, size: nat): (c: seq<nat>)
      ensures |c| == size && Prf.ValidChoices(c)
    {
      seq<nat>(size, (i: int) requires 0 <= i < size => stream(key, history, i) % (i + 1))
    }

    /** The permutation a draw returns. */
    function Shuffled(key: nat, history: seq<Draw>, size: nat): (p: seq<nat>)
      ensures |p| == size && Prf.IsPermutation(p)
    {
      Prf.FisherYatesPermutes(Choices(key, history, size), size);
      Prf.FisherYates(Choices(key, history, size), size)
    }

    method DrawMine(i: nat, d: Draw) returns (history: seq<Draw>)
      requires i < 3 && Sound()
      modifies this`mine, this`log
      ensures history == old(mine.At(i))
      ensures mine == old(mine).With(i, old(mine.At(i)) + [d])
      ensures log == old(log).With(i, old(log.At(i)) + [DrewMine(d)]) && Sound()
    {
      RecordDraw(run, log, next, back, i, DrewMine(d));
      history := mine.At(i);
      mine := mine.With(i, mine.At(i) + [d]);
      log := log.With(i, log.At(i) + [DrewMine(d)]);
    }

    method DrawPrev(i: nat, d: Draw) returns (history: seq<Draw>)
      requires i < 3 && Sound()
      modifies this`prev, this`log
      ensures history == old(prev.At(i))
      ensures prev == old(prev).With(i, old(prev.At(i)) + [d])
      ensures log == old(log).With(i, old(log.At(i)) + [DrewPrev(d)]) && Sound()
    {
      RecordDraw(run, log, next, back, i, DrewPrev(d));
      history := prev.At(i);
      prev := prev.With(i, prev.At(i) + [d]);
      log := log.With(i, log.At(i) + [DrewPrev(d)]);
    }

    method SendNext(i: nat, m: Message)
      requires i < 3 && Sound()
      modifies this`next, this`log, this`run
      ensures next == old(next).With(i, old(next.At(i)) + [m])
      ensures log == old(log).With(i, old(log.At(i)) + [SentNext(Len(m))])
      ensures Sound() && run == old(run) + [Step(i, Sent(SentNext(Len(m)), m), next, back)]
    {
      next := next.With(i, next.At(i) + [m]);
      log := log.With(i, log.At(i) + [SentNext(Len(m))]);
      run := run + [Step(i, Sent(SentNext(Len(m)), m), next, back)];
      RecordStep(old(run), old(log), old(next), old(back), Step(i, Sent(SentNext(Len(m)), m), next, back));
    }

    method SendPrev(i: nat, m: Message)
      requires i < 3 && Sound()
      modifies this`back, this`log, this`run
      ensures back == old(back).With(i, old(back.At(i)) + [m])
      ensures log == old(log).With(i, old(log.At(i)) + [SentPrev(Len(m))])
      ensures Sound() && run == old(run) + [Step(i, Sent(SentPrev(Len(m)), m), next, back)]
    {
      back := back.With(i, back.At(i) + [m]);
      log := log.With(i, log.At(i) + [SentPrev(Len(m))]);
      run := run + [Step(i, Sent(SentPrev(Len(m)), m), next, back)];
      RecordStep(old(run), old(log), old(next), old(back), Step(i, Sent(SentPrev(Len(m)), m), next, back));
    }

    /** Blocks until the previous party's message is there; callers run it only then. */
    method ReceivePrev(i: nat) returns (m: Message)
      requires i < 3 && next.At(Before(i)) != [] && Sound()
      modifies this`next, this`log, this`run
      ensures m == old(next.At(Before(i)))[0]
      ensures next == old(next).With(Before(i), old(next.At(Before(i)))[1..])
      ensures log == old(log).With(i, old(log.At(i)) + [GotPrev(Len(m))])
      ensures Sound() && run == old(run) + [Step(i, Received(GotPrev(Len(m)), m), next, back)]
    {
      var from := Before(i);
      m := next.At(from)[0];
      next := next.With(from, next.At(from)[1..]);
      log := log.With(i, log.At(i) + [GotPrev(Len(m))]);
      run := run + [Step(i, Received(GotPrev(Len(m)), m), next, back)];
      RecordStep(old(run), old(log), old(next), old(back), Step(i, Received(GotPrev(Len(m)), m), next, back));
    }

    method ReceiveNext(i: nat) returns (m: Message)
      requires i < 3 && back.At(After(i)) != [] && Sound()
      modifies this`back, this`log, this`run
      ensures m == old(back.At(After(i)))[0]
      ensures back == old(back).With(After(i), old(back.At(After(i)))[1..])
      ensures log == old(log).With(i, old(log.At(i)) + [GotNext(Len(m))])
      ensures Sound() && run == old(run) + [Step(i, Received(GotNext(Len(m)), m), next, back)]
    {
      var from := After(i);
      m := back.At(from)[0];
      back := back.With(from, back.At(from)[1..]);
      log := log.With(i, log.At(i) + [GotNext(Len(m))]);
      run := run + [Step(i, Received(GotNext(Len(m)), m), next, back)];
      RecordStep(old(run), old(log), old(next), old(back), Step(i, Received(GotNext(Len(m)), m), next, back));
    }

    /** Everybody receives the one message its predecessor has sent. */
    method ReceiveRound() returns (m: Trio<Message>)
      requires |next.p0| == |next.p1| == |next.p2| == 1 && Sound()
      modifies this`next, this`log, this`run
      ensures Drained(next) && Sound()
      ensures m == Trio(old(next.p2[0]), old(next.p0[0]), old(next.p1[0]))
      ensures log == Trio(old(log.p0) + [GotPrev(Len(m.p0))], old(log.p1) + [GotPrev(Len(m.p1))],
                          old(log.p2) + [GotPrev(Len(m.p2))])
      ensures Got(run, 0, m.p0) && Got(run, 1, m.p1) && Got(run, 2, m.p2)
    {
      ghost var r0 := run;
      var m0 := ReceivePrev(0);
      ghost var r1 := run;
      var m1 := ReceivePrev(1);
      ghost var r2 := run;
      var m2 := ReceivePrev(2);
      m := Trio(m0, m1, m2);
      GotSnoc(r0, r1[|r0|], 0, m0);
      GotSnoc(r1, r2[|r1|], 0, m0);
      GotSnoc(r1, r2[|r1|], 1, m1);
      GotSnoc(r2, run[|r2|], 0, m0);
      GotSnoc(r2, run[|r2|], 1, m1);
      GotSnoc(r2, run[|r2|], 2, m2);
    }

    /** Everybody sends a message to the next party. */
    method SendRound(m: Trio<Message>)
      requires Drained(next) && Sound()
      modifies this`next, this`log, this`run
      ensures next == Trio([m.p0], [m.p1], [m.p2]) && Sound()
      ensures log == Trio(old(log.p0) + [SentNext(Len(m.p0))], old(log.p1) + [SentNext(Len(m.p1))],
                          old(log.p2) + [SentNext(Len(m.p2))])
    {
      SendNext(0, m.p0);
      SendNext(1, m.p1);
      SendNext(2, m.p2);
      assert next.p0 == [m.p0] && next.p1 == [m.p1] && next.p2 == [m.p2];
    }

    /** Everybody passes a message of the same length on to the next party. */
    method PassOn(m: Trio<Message>) returns (got: Trio<Message>)
      requires Quiet() && Len(m.p0) == Len(m.p1) == Len(m.p2)
      modifies this
      ensures Quiet() && calls == old(calls) + [Reveal(Len(m.p0))]
      ensures got == Trio(m.p2, m.p0, m.p1)
      ensures Got(run, 0, m.p2) && Got(run, 1, m.p0) && Got(run, 2, m.p1)
    {
      SendRound(m);
      got := ReceiveRound();
      Finish(Reveal(Len(m.p0)));
    }

    /** All three parties have returned from call c. */
    ghost method Finish(c: Call)
      requires InStep() && Drained(next) && Drained(back) && Sound()
      requires log.p0 == Trace(calls, 0, sid) + Script(c, 0, sid)
      requires log.p1 == Trace(calls, 1, sid) + Script(c, 1, sid)
      requires log.p2 == Trace(calls, 2, sid) + Script(c, 2, sid)
      modifies this`calls
      ensures Quiet() && calls == old(calls) + [c]
    {
      TraceAppend(calls, c, 0, sid);
      TraceAppend(calls, c, 1, sid);
      TraceAppend(calls, c, 2, sid);
      calls := calls + [c];
    }
  }
}
