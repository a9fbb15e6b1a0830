/**
atomic_base<T> over ldrex and strex: a value of 8, 16 or 32 bits lives in a 32 bit
word whose upper bits are arbitrary. Any number of threads run their retry loops
concurrently; a store may fail for no reason, and it fails after every successful
store of another thread.
*/
module AtomicCell {
  import opened Arith
  import opened Words

  type Tid = nat
  datatype Width = Bits8 | Bits16 | Bits32

  function Size(w: Width): nat {
    match w
    case Bits8 => 8
    case Bits16 => 16
    case Bits32 => 32
  }

  /** The number of values of the type. */
  function Modulus(w: Width): nat {
    match w
    case Bits8 => 0x100
    case Bits16 => 0x1_0000
    case Bits32 => TWO32
  }

  /** (T)word: the value in the low bits. */
  function Narrow(w: Width, x: Word): Word {
    x % Modulus(w)
  }

  predicate Fits(w: Width, x: Word) {
    Narrow(w, x) == x
  }

  datatype Op =
    | FetchAdd(arg: Word)
    | FetchSub(arg: Word)
    | FetchAnd(arg: Word)
    | FetchOr(arg: Word)
    | FetchXor(arg: Word)
    | Exchange(arg: Word)
    | CompareExchange(expected: Word, desired: Word)

  /** What the operation computes on full words; a CompareExchange stores its desired value. */
  function Compute(op: Op, x: Word): Word {
    match op
    case FetchAdd(a) => (x + a) % TWO32
    case FetchSub(a) => (x - a) % TWO32
    case FetchAnd(a) => BitsOfWord(And, x, a)
    case FetchOr(a) => BitsOfWord(Or, x, a)
    case FetchXor(a) => BitsOfWord(Xor, x, a)
    case Exchange(a) => a
    case CompareExchange(_, d) => d
  }

  // The specification: an atomic cell of the given width

  /** The result an operation returns; success is meaningful for CompareExchange only. */
  datatype Outcome = Outcome(seen: Word, success: bool)

  predicate Succeeds(op: Op, cell: Word) {
    op.CompareExchange? ==> cell == op.expected
  }

  function CellAfter(w: Width, op: Op, cell: Word): Word {
    if Succeeds(op, cell) then Narrow(w, Compute(op, cell)) else cell
  }

  /** A call is one invocation of an operation; calls are numbered in the order of their invocations. */
  type Call = nat

  datatype Event = Event(call: Call, op: Op, outcome: Outcome)

  /** The cell after the history, starting from init. */
  function CellOf(w: Width, init: Word, history: seq<Event>): Word {
    if history == [] then init
    else CellAfter(w, history[|history| - 1].op, CellOf(w, init, history[..|history| - 1]))
  }

  /** Every event of the history returned what the atomic cell held at its place in the sequence. */
  ghost predicate Legal(w: Width, init: Word, history: seq<Event>) {
    forall i :: 0 <= i < |history| ==>
      var cell := CellOf(w, init, history[..i]);
      history[i].outcome == Outcome(cell, Succeeds(history[i].op, cell))
  }

  // The implementation

  datatype Thread =
    | Looping(call: Call, op: Op)                  // before __ldrex
    | Loaded(call: Call, op: Op, seen: Word)        // between __ldrex and __strex; seen is (T)__ldrex
    | Finished(call: Call, op: Op, outcome: Outcome)

  /** Who called what. */
  datatype Invocation = Invocation(t: Tid, op: Op)

  /**
    monitor holds the threads whose exclusive access is still intact. The rest is history: the
    linearisation, the position of each call in it, the invocations and the outcomes returned.
  */
  datatype State = State(
    word: Word,
    threads: map<Tid, Thread>,
    monitor: set<Tid>,
    history: seq<Event>,
    position: map<Call, nat>,
    invoked: seq<Invocation>,
    returned: map<Call, Outcome>)

  datatype Action =
    | Invoke(t: Tid, op: Op)
    | LoadExclusive(t: Tid)
    | StoreExclusive(t: Tid, operand: Word, stored: Word)
      // operand: the loaded value after integer promotion; stored: the int, whose upper bits are arbitrary
    | LoseMonitor(t: Tid)                   // a context switch or anything else
    | Return(t: Tid)

  /** The expected argument is a value of the type; the others may carry any upper bits, as a sign-extended argument does. */
  predicate Valid(w: Width, op: Op) {
    op.CompareExchange? ==> Fits(w, op.expected)
  }

  predicate Enabled(w: Width, s: State, a: Action) {
    match a
    case Invoke(t, op) => t !in s.threads && Valid(w, op)
    case LoadExclusive(t) => t in s.threads && s.threads[t].Looping?
    case StoreExclusive(t, operand, stored) =>
      && t in s.threads && s.threads[t].Loaded? && Narrow(w, operand) == s.threads[t].seen
      && Narrow(w, stored) == Narrow(w, Compute(s.threads[t].op, operand))
    case LoseMonitor(_) => true
    case Return(t) => t in s.threads && s.threads[t].Finished?
  }

  /** The call of t takes effect: on the word, and as the next event of the history. */
  function Complete(s: State, t: Tid, seen: Word, word: Word, monitor: set<Tid>): State
    requires t in s.threads
  {
    var call, op := s.threads[t].call, s.threads[t].op;
    var outcome := Outcome(seen, Succeeds(op, seen));
    s.(word := word, monitor := monitor, threads := s.threads[t := Finished(call, op, outcome)],
       history := s.history + [Event(call, op, outcome)], position := s.position[call := |s.history|])
  }

  function Step(w: Width, s: State, a: Action): State
    requires Enabled(w, s, a)
  {
    match a
    case Invoke(t, op) =>
      s.(threads := s.threads[t := Looping(|s.invoked|, op)], invoked := s.invoked + [Invocation(t, op)])
    case LoadExclusive(t) =>
      var call, op, seen := s.threads[t].call, s.threads[t].op, Narrow(w, s.word);
      if Succeeds(op, seen) then s.(threads := s.threads[t := Loaded(call, op, seen)], monitor := s.monitor + {t})
      else Complete(s, t, seen, s.word, s.monitor - {t})
    case StoreExclusive(t, _, stored) =>
      if t in s.monitor then Complete(s, t, s.threads[t].seen, stored, {})
      else s.(threads := s.threads[t := Looping(s.threads[t].call, s.threads[t].op)])
    case LoseMonitor(t) => s.(monitor := s.monitor - {t})
    case Return(t) =>
      s.(threads := s.threads - {t}, returned := s.returned[s.threads[t].call := s.threads[t].outcome])
  }

  predicate CanRun(w: Width, s: State, run: seq<Action>)
    decreases |run|
  {
    run == [] || (Enabled(w, s, run[0]) && CanRun(w, Step(w, s, run[0]), run[1..]))
  }

  function Run(w: Width, s: State, run: seq<Action>): State
    requires CanRun(w, s, run)
    decreases |run|
  {
    if run == [] then s else Run(w, Step(w, s, run[0]), run[1..])
  }

  // Narrow arithmetic

  lemma LowBitsOfWord(w: Width, b: Bitwise, x: Word, y: Word, a: Word)
    requires Narrow(w, x) == Narrow(w, y)
    ensures Narrow(w, BitsOfWord(b, x, a)) == Narrow(w, BitsOfWord(b, y, a))
  {
    Powers();
    LowBits(b, x, a, y, 32, Size(w));
  }

  /** The bits above the value never influence the result: whatever extension of the operand is used, the low bits agree. */
  lemma UpperBitsDoNotMatter(w: Width, op: Op, x: Word, y: Word)
    requires Narrow(w, x) == Narrow(w, y)
    ensures Narrow(w, Compute(op, x)) == Narrow(w, Compute(op, y))
  {
    match op
    case FetchAdd(a) => SumIsNarrow(w, x, y, a);
    case FetchSub(a) => SumIsNarrow(w, x, y, 0 - (a as int));
    case FetchAnd(a) => LowBitsOfWord(w, And, x, y, a);
    case FetchOr(a) => LowBitsOfWord(w, Or, x, y, a);
    case FetchXor(a) => LowBitsOfWord(w, Xor, x, y, a);
    case Exchange(_) =>
    case CompareExchange(_, _) =>
  }

  lemma SumIsNarrow(w: Width, x: Word, y: Word, a: int)
    requires Narrow(w, x) == Narrow(w, y)
    ensures (x + a) % TWO32 % Modulus(w) == (y + a) % TWO32 % Modulus(w)
  {
    var p, c := Modulus(w), TWO32 / Modulus(w);
    assert TWO32 == c * p;
    ModOfMod(x + a, c, p);
    ModOfMod(y + a, c, p);
    ModShift(x, y, a, p);
  }

  lemma ModOfMod(z: int, c: nat, p: nat)
    requires p > 0 && c * p == TWO32
    ensures z % TWO32 % p == z % p
  {
    var i, r := z / TWO32, z % TWO32;
    var j, s := r / p, r % p;
    assert z == i * TWO32 + r && r == j * p + s;
    assert i * (c * p) == i * c * p;
    DivUnique(z, p, i * c + j, s);
  }

  lemma ModShift(x: nat, y: nat, a: int, p: nat)
    requires p > 0 && x % p == y % p
    ensures (x + a) % p == (y + a) % p
  {
    var u, v, t := x / p, y / p, (y + a) / p;
    assert x == u * p + x % p && y == v * p + y % p && y + a == t * p + (y + a) % p;
    assert (u - v + t) * p == u * p - v * p + t * p;
    DivUnique(x + a, p, u - v + t, (y + a) % p);
  }

  lemma NarrowTwice(w: Width, x: Word)
    ensures Narrow(w, Narrow(w, x)) == Narrow(w, x)
  {
  }

  // What the operations leave in the cell

  /** fetch_add adds and fetch_sub subtracts modulo the size of the type, so each undoes the other. */
  lemma AddAndSubtract(w: Width, cell: Word, a: Word)
    requires Fits(w, cell)
    ensures CellAfter(w, FetchAdd(a), cell) == (cell + a) % Modulus(w)
    ensures CellAfter(w, FetchSub(a), cell) == (cell - a) % Modulus(w)
    ensures CellAfter(w, FetchSub(a), CellAfter(w, FetchAdd(a), cell)) == cell
    ensures CellAfter(w, FetchAdd(a), CellAfter(w, FetchSub(a), cell)) == cell
  {
    SumInCell(w, cell, a);
    SumInCell(w, CellAfter(w, FetchAdd(a), cell), a);
    SumInCell(w, CellAfter(w, FetchSub(a), cell), a);
    Undo(cell, a, Modulus(w));
    Undo(cell, -(a as int), Modulus(w));
  }

  lemma SumInCell(w: Width, x: Word, a: Word)
    ensures CellAfter(w, FetchAdd(a), x) == (x + a) % Modulus(w)
    ensures CellAfter(w, FetchSub(a), x) == (x - a) % Modulus(w)
  {
    NarrowOfWrapped(w, x + a);
    NarrowOfWrapped(w, x - a);
  }

  lemma NarrowOfWrapped(w: Width, z: int)
    ensures z % TWO32 % Modulus(w) == z % Modulus(w)
  {
    ModOfMod(z, TWO32 / Modulus(w), Modulus(w));
  }

  lemma Undo(cell: nat, a: int, p: nat)
    requires p > 0 && cell < p
    ensures ((cell + a) % p - a) % p == cell
  {
    var q, r := (cell + a) / p, (cell + a) % p;
    assert cell + a == q * p + r;
    assert r - a == -q * p + cell;
    DivUnique(r - a, p, -q, cell);
  }

  /** Every bit of the type: and is the conjunction, or the disjunction and xor the inequality of the bits. */
  lemma BitwiseOperations(w: Width, cell: Word, a: Word, i: nat)
    requires i < Size(w)
    ensures BitAt(CellAfter(w, FetchAnd(a), cell), i) == 1 <==> BitAt(cell, i) == 1 && BitAt(a, i) == 1
    ensures BitAt(CellAfter(w, FetchOr(a), cell), i) == 1 <==> BitAt(cell, i) == 1 || BitAt(a, i) == 1
    ensures BitAt(CellAfter(w, FetchXor(a), cell), i) == 1 <==> BitAt(cell, i) != BitAt(a, i)
  {
    Powers();
    BitsAreBitwise(cell, a, 32, i);
    LowBitsStay(BitsOfWord(And, cell, a), Size(w), i);
    LowBitsStay(BitsOfWord(Or, cell, a), Size(w), i);
    LowBitsStay(BitsOfWord(Xor, cell, a), Size(w), i);
  }

  /** exchange leaves its argument; compare_exchange leaves the desired value exactly if the cell is as expected, and reports which. */
  lemma Exchanges(w: Width, cell: Word, a: Word, expected: Word)
    requires Fits(w, cell)
    ensures CellAfter(w, Exchange(a), cell) == a % Modulus(w) && Succeeds(Exchange(a), cell)
    ensures Succeeds(CompareExchange(expected, a), cell) <==> cell == expected
    ensures CellAfter(w, CompareExchange(expected, a), cell) == if cell == expected then a % Modulus(w) else cell
  {
  }

  /** The size of the type: the values are those of its bits. */
  lemma ModulusIsPowerOfSize(w: Width)
    ensures Modulus(w) == Pow2(Size(w)) && Size(w) in {8, 16, 32}
  {
    Powers();
  }

  // Refinement

  /** The abstraction: the low bits of the word are the atomic cell. */
  ghost predicate CellInv(w: Width, init: Word, s: State) {
    Narrow(w, s.word) == CellOf(w, init, s.history) && Legal(w, init, s.history)
  }

  /** The event of the call is in the history, at its position, with this outcome. */
  predicate Recorded(s: State, c: Call, op: Op, outcome: Outcome) {
    c in s.position && s.position[c] < |s.history| && s.history[s.position[c]] == Event(c, op, outcome)
  }

  /** A thread runs the call it was invoked with, which has its event exactly if it is finished. */
  predicate ThreadInv(w: Width, s: State, t: Tid) {
    t in s.threads ==>
      var p := s.threads[t];
      && p.call < |s.invoked| && s.invoked[p.call].t == t && s.invoked[p.call].op == p.op && p.call !in s.returned
      && (if p.Finished? then Recorded(s, p.call, p.op, p.outcome) else p.call !in s.position)
      && (p.Loaded? ==> Succeeds(p.op, p.seen) && (t in s.monitor ==> p.seen == Narrow(w, s.word)))
  }

  /** A call is returned, with its event, or still the one of its thread. */
  predicate CallInv(s: State, c: Call) {
    && (c in s.position ==> c < |s.invoked| && s.position[c] < |s.history|)
    && (c < |s.invoked| ==>
          var i := s.invoked[c];
          if c in s.returned then Recorded(s, c, i.op, s.returned[c]) else i.t in s.threads && s.threads[i.t].call == c)
    && (c in s.returned ==> c < |s.invoked|)
  }

  /** Every event is the one event of its call. */
  predicate EventInv(s: State, i: int) {
    0 <= i < |s.history| ==> s.history[i].call in s.position && s.position[s.history[i].call] == i
  }

  ghost predicate Inv(w: Width, init: Word, s: State) {
    && CellInv(w, init, s)
    && (forall t: Tid :: ThreadInv(w, s, t))
    && (forall c: Call :: CallInv(s, c))
    && (forall i :: EventInv(s, i))
  }

  /** One step is invisible at the cell and finishes no call, or it is exactly one atomic operation on it by the call that it finishes. */
  ghost predicate Refines(w: Width, s: State, s': State) {
    || (&& s'.history == s.history && s'.word == s.word
        && forall t :: t in s'.threads && s'.threads[t].Finished? ==> t in s.threads && s.threads[t] == s'.threads[t])
    || (exists t :: t in s.threads && Performs(w, s, s', t))
  }

  ghost predicate Performs(w: Width, s: State, s': State, t: Tid)
    requires t in s.threads
  {
    var cell, p := Narrow(w, s.word), s.threads[t];
    var outcome := Outcome(cell, Succeeds(p.op, cell));
    && !p.Finished?
    && s'.threads == s.threads[t := Finished(p.call, p.op, outcome)]
    && s'.history == s.history + [Event(p.call, p.op, outcome)]
    && Narrow(w, s'.word) == CellAfter(w, p.op, cell)
  }

  /** What Complete needs: the value seen is the cell, and the word receives what the operation makes of it. */
  ghost predicate CanComplete(w: Width, s: State, t: Tid, seen: Word, word: Word, monitor: set<Tid>) {
    && t in s.threads && !s.threads[t].Finished? && seen == Narrow(w, s.word)
    && Narrow(w, word) == CellAfter(w, s.threads[t].op, seen)
    && (word == s.word || monitor == {}) && monitor <= s.monitor
  }

  lemma CompleteKeepsCell(w: Width, init: Word, s: State, t: Tid, seen: Word, word: Word, monitor: set<Tid>)
    requires CellInv(w, init, s) && CanComplete(w, s, t, seen, word, monitor)
    ensures CellInv(w, init, Complete(s, t, seen, word, monitor))
  {
    var h, h' := s.history, Complete(s, t, seen, word, monitor).history;
    assert h'[..|h|] == h;
    forall i | 0 <= i < |h'|
      ensures h'[i].outcome == Outcome(CellOf(w, init, h'[..i]), Succeeds(h'[i].op, CellOf(w, init, h'[..i])))
    {
      assert i < |h| ==> h'[..i] == h[..i];
    }
  }

  lemma CompleteKeepsThread(w: Width, s: State, t: Tid, seen: Word, word: Word, monitor: set<Tid>, u: Tid)
    requires CanComplete(w, s, t, seen, word, monitor) && ThreadInv(w, s, t) && ThreadInv(w, s, u)
    ensures ThreadInv(w, Complete(s, t, seen, word, monitor), u)
  {
  }

  lemma CompleteKeepsCall(w: Width, s: State, t: Tid, seen: Word, word: Word, monitor: set<Tid>, c: Call)
    requires CanComplete(w, s, t, seen, word, monitor) && ThreadInv(w, s, t) && CallInv(s, c)
    ensures CallInv(Complete(s, t, seen, word, monitor), c)
  {
  }

  lemma CompleteKeepsInv(w: Width, init: Word, s: State, t: Tid, seen: Word, word: Word, monitor: set<Tid>)
    requires Inv(w, init, s) && CanComplete(w, s, t, seen, word, monitor)
    ensures Inv(w, init, Complete(s, t, seen, word, monitor))
    ensures Performs(w, s, Complete(s, t, seen, word, monitor), t)
  {
    var s' := Complete(s, t, seen, word, monitor);
    CompleteKeepsCell(w, init, s, t, seen, word, monitor);
    forall u: Tid ensures ThreadInv(w, s', u) { CompleteKeepsThread(w, s, t, seen, word, monitor, u); }
    forall c: Call ensures CallInv(s', c) { CompleteKeepsCall(w, s, t, seen, word, monitor, c); }
    assert ThreadInv(w, s, t);
    forall i ensures EventInv(s', i) { assert EventInv(s, i); }
  }

  /** A step that only moves its own, unfinished call. */
  lemma RetryKeepsInv(w: Width, init: Word, s: State, t: Tid, p: Thread, monitor: set<Tid>)
    requires Inv(w, init, s) && t in s.threads && !s.threads[t].Finished? && !p.Finished?
    requires p.call == s.threads[t].call && p.op == s.threads[t].op && monitor <= s.monitor + {t}
    requires p.Loaded? ==> Succeeds(p.op, p.seen) && p.seen == Narrow(w, s.word)
    ensures Inv(w, init, s.(threads := s.threads[t := p], monitor := monitor))
  {
    var s' := s.(threads := s.threads[t := p], monitor := monitor);
    assert ThreadInv(w, s, t);
    forall u: Tid ensures ThreadInv(w, s', u) { assert ThreadInv(w, s, u); }
    forall c: Call ensures CallInv(s', c) { assert CallInv(s, c); }
    forall i ensures EventInv(s', i) { assert EventInv(s, i); }
  }

  lemma LoadRefines(w: Width, init: Word, s: State, t: Tid)
    requires Inv(w, init, s) && Enabled(w, s, LoadExclusive(t))
    ensures Inv(w, init, Step(w, s, LoadExclusive(t))) && Refines(w, s, Step(w, s, LoadExclusive(t)))
  {
    var p, seen := s.threads[t], Narrow(w, s.word);
    if Succeeds(p.op, seen) {
      RetryKeepsInv(w, init, s, t, Loaded(p.call, p.op, seen), s.monitor + {t});
    } else {
      CompleteKeepsInv(w, init, s, t, seen, s.word, s.monitor - {t});
    }
  }

  lemma StoreRefines(w: Width, init: Word, s: State, t: Tid, operand: Word, stored: Word)
    requires Inv(w, init, s) && Enabled(w, s, StoreExclusive(t, operand, stored))
    ensures Inv(w, init, Step(w, s, StoreExclusive(t, operand, stored)))
    ensures Refines(w, s, Step(w, s, StoreExclusive(t, operand, stored)))
  {
    var p := s.threads[t];
    if t in s.monitor {
      IntactMonitorCompletes(w, init, s, t, operand, stored);
      CompleteKeepsInv(w, init, s, t, p.seen, stored, {});
    } else {
      RetryKeepsInv(w, init, s, t, Looping(p.call, p.op), s.monitor);
    }
  }

  /** A loop is only repeated because the exclusive access was lost: with it intact the store completes the call. */
  lemma IntactMonitorCompletes(w: Width, init: Word, s: State, t: Tid, operand: Word, stored: Word)
    requires Inv(w, init, s) && Enabled(w, s, StoreExclusive(t, operand, stored)) && t in s.monitor
    ensures Step(w, s, StoreExclusive(t, operand, stored)).threads[t].Finished?
    ensures CanComplete(w, s, t, s.threads[t].seen, stored, {})
  {
    assert ThreadInv(w, s, t);
    NarrowTwice(w, operand);
    UpperBitsDoNotMatter(w, s.threads[t].op, operand, s.threads[t].seen);
  }

  /**
    A call from its start to its return: it loads; it stores if it can succeed; a store that fails sends it back to the
    load; and it returns the outcome it is finished with. Each step is possible whatever the other threads do.
  */
  lemma CourseOfACall(w: Width, init: Word, s: State, t: Tid, op: Op, operand: Word, stored: Word)
    requires Inv(w, init, s)
    ensures t !in s.threads && Valid(w, op) ==>
      && Enabled(w, s, Invoke(t, op))
      && var s' := Step(w, s, Invoke(t, op));
      s'.threads[t] == Looping(|s.invoked|, op) && s'.invoked == s.invoked + [Invocation(t, op)]
    ensures t in s.threads && s.threads[t].Looping? ==>
      && Enabled(w, s, LoadExclusive(t))
      && var p, s' := s.threads[t], Step(w, s, LoadExclusive(t));
      var seen := s.word % Modulus(w);
      if p.op.CompareExchange? && seen != p.op.expected
      then s'.threads[t] == Finished(p.call, p.op, Outcome(seen, false))
      else s'.threads[t] == Loaded(p.call, p.op, seen) && t in s'.monitor
    ensures Enabled(w, s, StoreExclusive(t, operand, stored)) ==>
      var p, s' := s.threads[t], Step(w, s, StoreExclusive(t, operand, stored));
      if t in s.monitor then s'.threads[t] == Finished(p.call, p.op, Outcome(p.seen, true)) && s'.word == stored
      else s'.threads[t] == Looping(p.call, p.op) && s'.word == s.word
    ensures Enabled(w, s, LoseMonitor(t)) && t !in Step(w, s, LoseMonitor(t)).monitor
    ensures t in s.threads && s.threads[t].Finished? ==>
      && Enabled(w, s, Return(t))
      && var p, s' := s.threads[t], Step(w, s, Return(t));
      t !in s'.threads && s'.returned == s.returned[p.call := p.outcome]
  {
    assert ThreadInv(w, s, t);
  }

  lemma InvokeRefines(w: Width, init: Word, s: State, t: Tid, op: Op)
    requires Inv(w, init, s) && Enabled(w, s, Invoke(t, op))
    ensures Inv(w, init, Step(w, s, Invoke(t, op))) && Refines(w, s, Step(w, s, Invoke(t, op)))
  {
    var s' := Step(w, s, Invoke(t, op));
    assert CallInv(s, |s.invoked|);
    forall u: Tid ensures ThreadInv(w, s', u) { assert ThreadInv(w, s, u); }
    forall c: Call ensures CallInv(s', c) { assert CallInv(s, c); }
    forall i ensures EventInv(s', i) { assert EventInv(s, i); }
  }

  lemma ReturnRefines(w: Width, init: Word, s: State, t: Tid)
    requires Inv(w, init, s) && Enabled(w, s, Return(t))
    ensures Inv(w, init, Step(w, s, Return(t))) && Refines(w, s, Step(w, s, Return(t)))
  {
    var s' := Step(w, s, Return(t));
    assert ThreadInv(w, s, t);
    forall u: Tid ensures ThreadInv(w, s', u) { assert ThreadInv(w, s, u); }
    forall c: Call ensures CallInv(s', c) { assert CallInv(s, c); }
    forall i ensures EventInv(s', i) { assert EventInv(s, i); }
  }

  lemma LoseMonitorRefines(w: Width, init: Word, s: State, t: Tid)
    requires Inv(w, init, s)
    ensures Inv(w, init, Step(w, s, LoseMonitor(t))) && Refines(w, s, Step(w, s, LoseMonitor(t)))
  {
    var s' := Step(w, s, LoseMonitor(t));
    forall u: Tid ensures ThreadInv(w, s', u) { assert ThreadInv(w, s, u); }
    forall c: Call ensures CallInv(s', c) { assert CallInv(s, c); }
    forall i ensures EventInv(s', i) { assert EventInv(s, i); }
  }

  lemma StepRefines(w: Width, init: Word, s: State, a: Action)
    requires Inv(w, init, s) && Enabled(w, s, a)
    ensures Inv(w, init, Step(w, s, a)) && Refines(w, s, Step(w, s, a))
  {
    match a
    case Invoke(t, op) => InvokeRefines(w, init, s, t, op);
    case LoadExclusive(t) => LoadRefines(w, init, s, t);
    case StoreExclusive(t, operand, stored) => StoreRefines(w, init, s, t, operand, stored);
    case LoseMonitor(t) => LoseMonitorRefines(w, init, s, t);
    case Return(t) => ReturnRefines(w, init, s, t);
  }

  lemma {:induction false} RunRefines(w: Width, init: Word, s: State, run: seq<Action>)
    requires Inv(w, init, s) && CanRun(w, s, run)
    ensures Inv(w, init, Run(w, s, run))
    decreases |run|
  {
    if run != [] {
      StepRefines(w, init, s, run[0]);
      RunRefines(w, init, Step(w, s, run[0]), run[1..]);
    }
  }

  function Initial(word: Word): State {
    State(word, map[], {}, [], map[], [], map[])
  }

  /** The call c has come to its end with this outcome: it has returned, or its thread is about to return. */
  predicate Completed(s: State, c: Call, outcome: Outcome) {
    && c < |s.invoked|
    && var t := s.invoked[c].t;
       || (c in s.returned && s.returned[c] == outcome)
       || (c !in s.returned && t in s.threads && s.threads[t] == Finished(c, s.invoked[c].op, outcome))
  }

  /** The event at index i is the one of the call c, with this outcome. */
  predicate EventOf(s: State, i: nat, c: Call, outcome: Outcome) {
    i < |s.history| && c < |s.invoked| && s.history[i] == Event(c, s.invoked[c].op, outcome)
  }

  /**
    Linearisability for any number of threads, any interleaving and any store failures. The events form a
    legal sequential history of an atomic cell of the given width, which the low bits of the word hold at
    its end. The events are those of the completed calls, each with the operation it was called with and the
    outcome it returns, and no call has two. ReturnedCallsComeFirst adds the order in real time.
  */
  lemma CompletedOperationsAreLinearisable(w: Width, word: Word, run: seq<Action>)
    requires CanRun(w, Initial(word), run)
    ensures var s := Run(w, Initial(word), run);
      && Legal(w, Narrow(w, word), s.history)
      && Narrow(w, s.word) == CellOf(w, Narrow(w, word), s.history)
      && (forall c: Call, outcome :: Completed(s, c, outcome) <==> exists i: nat :: EventOf(s, i, c, outcome))
      && (forall i: nat :: i < |s.history| ==> EventOf(s, i, s.history[i].call, s.history[i].outcome))
      && (forall i, j :: 0 <= i < j < |s.history| ==> s.history[i].call != s.history[j].call)
  {
    RunRefines(w, Narrow(w, word), Initial(word), run);
    var s := Run(w, Initial(word), run);
    forall c: Call, outcome ensures Completed(s, c, outcome) <==> exists i: nat :: EventOf(s, i, c, outcome) {
      CompletedHasEvent(w, Narrow(w, word), s, c, outcome);
    }
    forall i: nat | i < |s.history| ensures EventOf(s, i, s.history[i].call, s.history[i].outcome) {
      EventHasCall(w, Narrow(w, word), s, i);
    }
    forall i, j | 0 <= i < j < |s.history| ensures s.history[i].call != s.history[j].call {
      assert EventInv(s, i) && EventInv(s, j);
    }
  }

  /** In any continuation of a run, the event of a call that has returned comes before the event of a call that is invoked later. */
  lemma ReturnedCallsComeFirst(w: Width, word: Word, run: seq<Action>, more: seq<Action>, i: nat, j: nat)
    requires CanRun(w, Initial(word), run) && CanRun(w, Run(w, Initial(word), run), more)
    requires var s := Run(w, Run(w, Initial(word), run), more); i < |s.history| && j < |s.history|
    requires var s := Run(w, Run(w, Initial(word), run), more); s.history[i].call in Run(w, Initial(word), run).returned
    requires var s := Run(w, Run(w, Initial(word), run), more); s.history[j].call >= |Run(w, Initial(word), run).invoked|
    ensures i < j
  {
    var init, s1 := Narrow(w, word), Run(w, Initial(word), run);
    RunRefines(w, init, Initial(word), run);
    RunRefines(w, init, s1, more);
    HistoryGrows(w, s1, more);
    var s := Run(w, s1, more);
    var c := s.history[i].call;
    assert CallInv(s1, c) && EventInv(s, i) && EventInv(s, s1.position[c]);
    assert s.history[s1.position[c]] == s1.history[s1.position[c]];
    assert j < |s1.history| ==> s.history[j] == s1.history[j];
    if j < |s1.history| { EventHasCall(w, init, s1, j); }
  }

  lemma {:induction false} HistoryGrows(w: Width, s: State, run: seq<Action>)
    requires CanRun(w, s, run)
    ensures var s' := Run(w, s, run); |s.history| <= |s'.history| && s'.history[..|s.history|] == s.history
    decreases |run|
  {
    if run != [] {
      var s1 := Step(w, s, run[0]);
      HistoryGrows(w, s1, run[1..]);
      var s' := Run(w, s1, run[1..]);
      assert s1.history[..|s.history|] == s.history;
      assert s'.history[..|s.history|] == s'.history[..|s1.history|][..|s.history|];
    }
  }

  lemma EventHasCall(w: Width, init: Word, s: State, i: nat)
    requires Inv(w, init, s) && i < |s.history|
    ensures EventOf(s, i, s.history[i].call, s.history[i].outcome)
    ensures Completed(s, s.history[i].call, s.history[i].outcome)
  {
    var c := s.history[i].call;
    assert EventInv(s, i) && CallInv(s, c) && ThreadInv(w, s, s.invoked[c].t);
  }

  lemma CompletedHasEvent(w: Width, init: Word, s: State, c: Call, outcome: Outcome)
    requires Inv(w, init, s)
    ensures Completed(s, c, outcome) <==> exists i: nat :: EventOf(s, i, c, outcome)
  {
    if Completed(s, c, outcome) {
      assert CallInv(s, c) && ThreadInv(w, s, s.invoked[c].t);
      assert EventOf(s, s.position[c], c, outcome);
    }
    forall i: nat | EventOf(s, i, c, outcome) ensures Completed(s, c, outcome) {
      EventHasCall(w, init, s, i);
    }
  }
}
