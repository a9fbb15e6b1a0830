/**
LargeMessageQueue: a semaphore counting free slots, a memory pool and a FIFO of
chunk pointers, used by any number of senders and receivers. Every operation on
the semaphore, the pool, the FIFO and an element is one step. An operation
(one send or receive call) is named by the number of its first step.
*/
module MessageQueue {

  type Chunk = nat
  type Op = nat
  type Element = int

  /** A sender that got a chunk; built tells whether the element has been constructed in it. */
  datatype Outgoing = Outgoing(chunk: Chunk, element: Element, built: bool)

  /** A receiver that took the pointer with the given position in the stream; later also the moved-out element. */
  datatype Incoming = Incoming(chunk: Chunk, position: nat, moved: bool, element: Element)

  datatype Result = Result(position: nat, element: Element)

  datatype Place = InPool | WithSender(op: Op) | InFifo(position: nat) | WithReceiver(op: Op)

  /**
    The last fields are history: calls holds the element each send was called with, producer and sent
    who enqueued and what, in the order of the enqueue steps, sentAt the position of each send in that
    stream, consumer who dequeued which position, delivered what the receivers returned, and place where
    each chunk is.
  */
  datatype State = State(
    capacity: nat,
    tokens: nat,
    pool: seq<Chunk>,
    memory: map<Chunk, Element>,
    fifo: seq<Chunk>,
    granted: map<Op, Element>,
    sending: map<Op, Outgoing>,
    receiving: map<Op, Incoming>,
    returning: map<Op, Result>,
    ops: nat,
    calls: map<Op, Element>,
    sent: seq<Element>,
    producer: seq<Op>,
    sentAt: map<Op, nat>,
    consumer: seq<Op>,
    delivered: map<Op, Result>,
    place: map<Chunk, Place>)

  datatype Action =
    | TakeSlot(element: Element)   // m_numAvailable.wait() or a successful try_wait()
    | Allocate(op: Op)
    | Construct(op: Op)
    | Enqueue(op: Op)
    | Dequeue
    | MoveOut(op: Op)
    | Release(op: Op)
    | PostSlot(op: Op)

  function Initial(capacity: nat): State {
    var pool: seq<Chunk> := seq(capacity, i => i);
    State(capacity, capacity, pool, map[], [], map[], map[], map[], map[], 0,
          map[], [], [], map[], [], map[], map c | c in pool :: InPool)
  }

  predicate Enabled(s: State, a: Action) {
    match a
    case TakeSlot(_) => s.tokens > 0
    case Allocate(op) => op in s.granted
    case Construct(op) => op in s.sending && !s.sending[op].built
    case Enqueue(op) => op in s.sending && s.sending[op].built
    case Dequeue => s.fifo != []
    case MoveOut(op) => op in s.receiving && !s.receiving[op].moved
    case Release(op) => op in s.receiving && s.receiving[op].moved
    case PostSlot(op) => op in s.returning
  }

  function TakeSlotStep(s: State, element: Element): State
    requires s.tokens > 0
  {
    s.(tokens := s.tokens - 1, granted := s.granted[s.ops := element], calls := s.calls[s.ops := element],
       ops := s.ops + 1)
  }

  function AllocateStep(s: State, op: Op): State
    requires op in s.granted
  {
    if s.pool == [] then s
    else s.(pool := s.pool[1..], granted := s.granted - {op},
            sending := s.sending[op := Outgoing(s.pool[0], s.granted[op], false)],
            place := s.place[s.pool[0] := WithSender(op)])
  }

  function ConstructStep(s: State, op: Op): State
    requires op in s.sending
  {
    var o := s.sending[op];
    s.(memory := s.memory[o.chunk := o.element], sending := s.sending[op := o.(built := true)])
  }

  function EnqueueStep(s: State, op: Op): State
    requires op in s.sending
  {
    var o := s.sending[op];
    s.(fifo := s.fifo + [o.chunk], sending := s.sending - {op}, sent := s.sent + [o.element],
       producer := s.producer + [op], sentAt := s.sentAt[op := |s.sent|],
       place := s.place[o.chunk := InFifo(|s.sent|)])
  }

  function DequeueStep(s: State): State
    requires s.fifo != []
  {
    var c := s.fifo[0];
    s.(fifo := s.fifo[1..], receiving := s.receiving[s.ops := Incoming(c, |s.consumer|, false, 0)],
       consumer := s.consumer + [s.ops], ops := s.ops + 1, place := s.place[c := WithReceiver(s.ops)])
  }

  function MoveOutStep(s: State, op: Op): State
    requires op in s.receiving
  {
    var i := s.receiving[op];
    if i.chunk !in s.memory then s
    else s.(memory := s.memory - {i.chunk},
            receiving := s.receiving[op := i.(moved := true, element := s.memory[i.chunk])])
  }

  function ReleaseStep(s: State, op: Op): State
    requires op in s.receiving
  {
    var i := s.receiving[op];
    s.(pool := [i.chunk] + s.pool, receiving := s.receiving - {op},
       returning := s.returning[op := Result(i.position, i.element)], place := s.place[i.chunk := InPool])
  }

  function PostSlotStep(s: State, op: Op): State
    requires op in s.returning
  {
    s.(tokens := s.tokens + 1, returning := s.returning - {op}, delivered := s.delivered[op := s.returning[op]])
  }

  function Step(s: State, a: Action): State
    requires Enabled(s, a)
  {
    match a
    case TakeSlot(element) => TakeSlotStep(s, element)
    case Allocate(op) => AllocateStep(s, op)
    case Construct(op) => ConstructStep(s, op)
    case Enqueue(op) => EnqueueStep(s, op)
    case Dequeue => DequeueStep(s)
    case MoveOut(op) => MoveOutStep(s, op)
    case Release(op) => ReleaseStep(s, op)
    case PostSlot(op) => PostSlotStep(s, op)
  }

  predicate CanRun(s: State, run: seq<Action>)
    decreases |run|
  {
    run == [] || (Enabled(s, run[0]) && CanRun(Step(s, run[0]), run[1..]))
  }

  function Run(s: State, run: seq<Action>): State
    requires CanRun(s, run)
    decreases |run|
  {
    if run == [] then s else Run(Step(s, run[0]), run[1..])
  }

  /** Slots and chunks are conserved. */
  predicate Conserved(s: State) {
    && s.tokens + |s.granted| + |s.returning| == |s.pool|
    && |s.pool| + |s.sending| + |s.fifo| + |s.receiving| == s.capacity
  }

  predicate PlaceIs(s: State, c: Chunk, p: Place) {
    c in s.place && s.place[c] == p
  }

  predicate Stored(s: State, c: Chunk, e: Element) {
    c in s.memory && s.memory[c] == e
  }

  predicate Consumed(s: State, op: Op, position: nat) {
    position < |s.consumer| && s.consumer[position] == op && position < |s.sent|
  }

  predicate Correct(s: State, op: Op, r: Result) {
    Consumed(s, op, r.position) && r.element == s.sent[r.position]
  }

  predicate Tracked(s: State, op: Op, position: nat) {
    || (op in s.receiving && s.receiving[op].position == position)
    || (op in s.returning && s.returning[op].position == position)
    || (op in s.delivered && s.delivered[op].position == position)
  }

  /** The send has its element at its position of the stream. */
  predicate Sent(s: State, op: Op) {
    && op in s.calls && op in s.sentAt && s.sentAt[op] < |s.sent| && |s.sent| == |s.producer|
    && s.producer[s.sentAt[op]] == op && s.sent[s.sentAt[op]] == s.calls[op]
  }

  /** A send that was called is on its way with its own element, or it has sent it. */
  predicate CallInv(s: State, op: Op) {
    && (op in s.calls ==> op < s.ops && (op in s.granted || op in s.sending || Sent(s, op)))
    && (op in s.granted ==> op in s.calls && s.granted[op] == s.calls[op] && op !in s.sentAt)
    && (op in s.sending ==> op in s.calls && s.sending[op].element == s.calls[op] && op !in s.sentAt)
    && (op in s.sentAt ==> op in s.calls)
  }

  /** Every position of the stream is the one of the send that produced it. */
  predicate ProducerInv(s: State, p: int) {
    0 <= p < |s.producer| ==> s.producer[p] in s.sentAt && s.sentAt[s.producer[p]] == p
  }

  predicate SenderInv(s: State, op: Op) {
    && (op in s.granted ==> op < s.ops && op !in s.sending)
    && (op in s.sending ==>
          var o := s.sending[op];
          op < s.ops && PlaceIs(s, o.chunk, WithSender(op)) && (o.built ==> Stored(s, o.chunk, o.element)))
  }

  predicate ReceiverInv(s: State, op: Op) {
    && (op in s.receiving ==>
          var r := s.receiving[op];
          && op < s.ops && op !in s.returning && op !in s.delivered
          && PlaceIs(s, r.chunk, WithReceiver(op))
          && Consumed(s, op, r.position)
          && (if r.moved then r.element == s.sent[r.position] else Stored(s, r.chunk, s.sent[r.position])))
    && (op in s.returning ==> op < s.ops && op !in s.delivered && Correct(s, op, s.returning[op]))
    && (op in s.delivered ==> op < s.ops && Correct(s, op, s.delivered[op]))
  }

  /** The chunk at index i of the FIFO holds the element that is i places behind the last dequeued one. */
  predicate QueuedInv(s: State, i: int) {
    0 <= i < |s.fifo| ==>
      && |s.consumer| + i < |s.sent|
      && PlaceIs(s, s.fifo[i], InFifo(|s.consumer| + i)) && Stored(s, s.fifo[i], s.sent[|s.consumer| + i])
  }

  predicate PositionInv(s: State, p: int) {
    0 <= p < |s.consumer| ==> s.consumer[p] < s.ops && Tracked(s, s.consumer[p], p)
  }

  /** The pool holds distinct chunks, and only chunks recorded there. */
  ghost predicate PoolInv(s: State) {
    && (forall i :: 0 <= i < |s.pool| ==> PlaceIs(s, s.pool[i], InPool))
    && (forall i, j :: 0 <= i < j < |s.pool| ==> s.pool[i] != s.pool[j])
  }

  /** The sends: their calls and their positions of the stream. */
  ghost predicate StreamInv(s: State) {
    && |s.producer| == |s.sent|
    && (forall op: Op :: CallInv(s, op))
    && (forall p :: ProducerInv(s, p))
  }

  /** Because every chunk in use is at its one recorded place, no two parties share one. */
  ghost predicate Inv(s: State) {
    && Conserved(s) && PoolInv(s)
    && |s.sent| == |s.consumer| + |s.fifo|
    && (forall op: Op :: SenderInv(s, op))
    && (forall op: Op :: ReceiverInv(s, op))
    && (forall i :: QueuedInv(s, i))
    && (forall p :: PositionInv(s, p))
  }

  /** What the code asserts: a chunk from the pool, room in the FIFO, and an element in the chunk received. */
  predicate AssertionHolds(s: State, a: Action) {
    && (a.Allocate? ==> s.pool != [])
    && (a.Enqueue? ==> |s.fifo| < s.capacity)
    && (a.MoveOut? && a.op in s.receiving ==> s.receiving[a.op].chunk in s.memory)
  }

  /** try_allocate never returns null, the FIFO always has room, and the element is there. */
  lemma NeverFaults(s: State, a: Action)
    requires Inv(s) && Enabled(s, a)
    ensures a.Allocate? ==> s.pool != []
    ensures a.Enqueue? ==> |s.fifo| < s.capacity
    ensures a.MoveOut? ==> s.receiving[a.op].chunk in s.memory
  {
    if a.Allocate? {
      assert |s.granted| > 0 by { assert s.granted.Keys != {}; }
    } else if a.MoveOut? {
      assert ReceiverInv(s, a.op);
    } else if a.Enqueue? {
      assert |s.sending| > 0 by { assert s.sending.Keys != {}; }
    }
  }

  /** Steps that leave the sends alone. */
  lemma SameStream(s: State, s': State)
    requires StreamInv(s) && s.ops <= s'.ops && s'.granted == s.granted && s'.sending == s.sending && s'.calls == s.calls
    requires s'.sent == s.sent && s'.producer == s.producer && s'.sentAt == s.sentAt
    ensures StreamInv(s')
  {
    forall op: Op ensures CallInv(s', op) { assert CallInv(s, op); }
    forall p ensures ProducerInv(s', p) { assert ProducerInv(s, p); }
  }

  lemma TakeSlotKeepsStream(s: State, element: Element)
    requires StreamInv(s) && s.tokens > 0
    ensures StreamInv(TakeSlotStep(s, element))
  {
    var s' := TakeSlotStep(s, element);
    assert CallInv(s, s.ops);
    forall op: Op ensures CallInv(s', op) { assert CallInv(s, op); }
    forall p ensures ProducerInv(s', p) { assert ProducerInv(s, p); }
  }

  lemma AllocateKeepsStream(s: State, op: Op)
    requires StreamInv(s) && op in s.granted && s.pool != []
    ensures StreamInv(AllocateStep(s, op))
  {
    var s' := AllocateStep(s, op);
    forall o: Op ensures CallInv(s', o) {
      assert CallInv(s, op) && CallInv(s, o);
      AllocateKeepsCall(s, op, o);
    }
    forall p ensures ProducerInv(s', p) { assert ProducerInv(s, p); }
  }

  lemma AllocateKeepsCall(s: State, op: Op, o: Op)
    requires CallInv(s, op) && CallInv(s, o) && op in s.granted && s.pool != []
    ensures CallInv(AllocateStep(s, op), o)
  {
  }

  lemma ConstructKeepsStream(s: State, op: Op)
    requires StreamInv(s) && op in s.sending
    ensures StreamInv(ConstructStep(s, op))
  {
    var s' := ConstructStep(s, op);
    forall o: Op ensures CallInv(s', o) { assert CallInv(s, o); }
    forall p ensures ProducerInv(s', p) { assert ProducerInv(s, p); }
  }

  lemma EnqueueKeepsStream(s: State, op: Op)
    requires StreamInv(s) && op in s.sending && op !in s.granted && |s.fifo| < s.capacity
    ensures StreamInv(EnqueueStep(s, op))
  {
    var s' := EnqueueStep(s, op);
    assert CallInv(s, op);
    forall o: Op ensures CallInv(s', o) { assert CallInv(s, o); }
    forall p ensures ProducerInv(s', p) { assert ProducerInv(s, p); }
  }

  lemma StepKeepsStream(s: State, a: Action)
    requires Inv(s) && StreamInv(s) && Enabled(s, a)
    ensures StreamInv(Step(s, a))
  {
    NeverFaults(s, a);
    match a
    case TakeSlot(element) => TakeSlotKeepsStream(s, element);
    case Allocate(op) => AllocateKeepsStream(s, op);
    case Construct(op) => ConstructKeepsStream(s, op);
    case Enqueue(op) => assert SenderInv(s, op); EnqueueKeepsStream(s, op);
    case Dequeue => SameStream(s, Step(s, a));
    case MoveOut(op) => SameStream(s, Step(s, a));
    case Release(op) => SameStream(s, Step(s, a));
    case PostSlot(op) => SameStream(s, Step(s, a));
  }

  lemma TakeSlotConserves(s: State, element: Element)
    requires Conserved(s) && s.tokens > 0 && s.ops !in s.granted
    ensures Conserved(TakeSlotStep(s, element))
  {
    var s' := TakeSlotStep(s, element);
    assert s'.granted.Keys == s.granted.Keys + {s.ops};
  }

  lemma TakeSlotKeepsInv(s: State, element: Element)
    requires Inv(s) && s.tokens > 0
    ensures Inv(TakeSlotStep(s, element))
  {
    var s' := TakeSlotStep(s, element);
    assert SenderInv(s, s.ops) && ReceiverInv(s, s.ops);
    TakeSlotConserves(s, element);
    forall o: Op ensures SenderInv(s', o) { assert SenderInv(s, o); }
    forall o: Op ensures ReceiverInv(s', o) { assert ReceiverInv(s, o); }
    forall i ensures QueuedInv(s', i) { assert QueuedInv(s, i); }
    forall p ensures PositionInv(s', p) { assert PositionInv(s, p); }
  }

  lemma AllocateConserves(s: State, op: Op)
    requires Conserved(s) && op in s.granted && s.pool != [] && op !in s.sending
    ensures Conserved(AllocateStep(s, op))
  {
    var s' := AllocateStep(s, op);
    assert s'.granted.Keys == s.granted.Keys - {op} && s'.sending.Keys == s.sending.Keys + {op};
  }

  lemma AllocateKeepsInv(s: State, op: Op)
    requires Inv(s) && op in s.granted && s.pool != []
    ensures Inv(AllocateStep(s, op))
  {
    var s' := AllocateStep(s, op);
    assert SenderInv(s, op) && ReceiverInv(s, op);
    AllocateConserves(s, op);
    forall o: Op ensures SenderInv(s', o) { assert SenderInv(s, o); }
    forall o: Op ensures ReceiverInv(s', o) { assert ReceiverInv(s, o); }
    forall i ensures QueuedInv(s', i) { assert QueuedInv(s, i); }
    forall p ensures PositionInv(s', p) { assert PositionInv(s, p); }
  }

  lemma ConstructConserves(s: State, op: Op)
    requires Conserved(s) && op in s.sending && !s.sending[op].built
    ensures Conserved(ConstructStep(s, op))
  {
    var s' := ConstructStep(s, op);
    assert s'.sending.Keys == s.sending.Keys;
  }

  lemma ConstructKeepsInv(s: State, op: Op)
    requires Inv(s) && op in s.sending && !s.sending[op].built
    ensures Inv(ConstructStep(s, op))
  {
    var s' := ConstructStep(s, op);
    assert SenderInv(s, op) && ReceiverInv(s, op);
    ConstructConserves(s, op);
    forall o: Op ensures SenderInv(s', o) { assert SenderInv(s, o); }
    forall o: Op ensures ReceiverInv(s', o) { assert ReceiverInv(s, o); }
    forall i ensures QueuedInv(s', i) { assert QueuedInv(s, i); }
    forall p ensures PositionInv(s', p) { assert PositionInv(s, p); }
  }

  lemma EnqueueConserves(s: State, op: Op)
    requires Conserved(s) && op in s.sending && s.sending[op].built && |s.fifo| < s.capacity
    ensures Conserved(EnqueueStep(s, op))
  {
    var s' := EnqueueStep(s, op);
    assert s'.sending.Keys == s.sending.Keys - {op};
  }

  lemma EnqueueKeepsInv(s: State, op: Op)
    requires Inv(s) && op in s.sending && s.sending[op].built && |s.fifo| < s.capacity
    ensures Inv(EnqueueStep(s, op))
  {
    var s' := EnqueueStep(s, op);
    assert SenderInv(s, op) && ReceiverInv(s, op);
    EnqueueConserves(s, op);
    forall o: Op ensures SenderInv(s', o) { assert SenderInv(s, o); }
    forall o: Op ensures ReceiverInv(s', o) { assert ReceiverInv(s, o); }
    forall i ensures QueuedInv(s', i) { assert QueuedInv(s, i); }
    forall p ensures PositionInv(s', p) { assert PositionInv(s, p); }
  }

  lemma DequeueConserves(s: State)
    requires Conserved(s) && s.fifo != [] && s.ops !in s.receiving
    ensures Conserved(DequeueStep(s))
  {
    var s' := DequeueStep(s);
    assert s'.receiving.Keys == s.receiving.Keys + {s.ops};
  }

  lemma DequeueKeepsInv(s: State)
    requires Inv(s) && s.fifo != []
    ensures Inv(DequeueStep(s))
  {
    var s' := DequeueStep(s);
    assert SenderInv(s, s.ops) && ReceiverInv(s, s.ops);
    assert QueuedInv(s, 0);
    DequeueConserves(s);
    forall o: Op ensures SenderInv(s', o) { assert SenderInv(s, o); }
    forall o: Op ensures ReceiverInv(s', o) { assert ReceiverInv(s, o); }
    forall i ensures QueuedInv(s', i) { assert QueuedInv(s, i + 1); }
    forall p ensures PositionInv(s', p) { assert PositionInv(s, p); }
  }

  lemma MoveOutConserves(s: State, op: Op)
    requires Conserved(s) && op in s.receiving && s.receiving[op].chunk in s.memory
    ensures Conserved(MoveOutStep(s, op))
  {
    var s' := MoveOutStep(s, op);
    assert s'.receiving.Keys == s.receiving.Keys;
  }

  lemma MoveOutKeepsInv(s: State, op: Op)
    requires Inv(s) && op in s.receiving && !s.receiving[op].moved && s.receiving[op].chunk in s.memory
    ensures Inv(MoveOutStep(s, op))
  {
    var s' := MoveOutStep(s, op);
    assert SenderInv(s, op) && ReceiverInv(s, op);
    MoveOutConserves(s, op);
    forall o: Op ensures SenderInv(s', o) && ReceiverInv(s', o) {
      assert SenderInv(s, o) && ReceiverInv(s, o);
      MoveOutKeepsParties(s, op, o);
    }
    forall i ensures QueuedInv(s', i) {
      MoveOutKeepsQueue(s, op, i);
    }
    forall p ensures PositionInv(s', p) { assert PositionInv(s, p); }
  }

  lemma MoveOutKeepsQueue(s: State, op: Op, i: int)
    requires op in s.receiving && s.receiving[op].chunk in s.memory
    requires ReceiverInv(s, op) && QueuedInv(s, i)
    ensures QueuedInv(MoveOutStep(s, op), i)
  {
  }

  /** Only the chunk of the receiver itself loses its element. */
  lemma MoveOutKeepsParties(s: State, op: Op, o: Op)
    requires op in s.receiving && !s.receiving[op].moved && s.receiving[op].chunk in s.memory
    requires ReceiverInv(s, op) && SenderInv(s, o) && ReceiverInv(s, o)
    ensures SenderInv(MoveOutStep(s, op), o) && ReceiverInv(MoveOutStep(s, op), o)
  {
  }

  lemma ReleaseConserves(s: State, op: Op)
    requires Conserved(s) && op in s.receiving && s.receiving[op].moved && op !in s.returning
    ensures Conserved(ReleaseStep(s, op))
  {
    var s' := ReleaseStep(s, op);
    assert s'.receiving.Keys == s.receiving.Keys - {op} && s'.returning.Keys == s.returning.Keys + {op};
  }

  lemma ReleaseKeepsInv(s: State, op: Op)
    requires Inv(s) && op in s.receiving && s.receiving[op].moved
    ensures Inv(ReleaseStep(s, op))
  {
    var s' := ReleaseStep(s, op);
    assert ReceiverInv(s, op);
    ReleaseConserves(s, op);
    forall o: Op ensures SenderInv(s', o) && ReceiverInv(s', o) {
      assert SenderInv(s, o) && ReceiverInv(s, o);
      ReleaseKeepsParties(s, op, o);
    }
    forall i ensures QueuedInv(s', i) { assert QueuedInv(s, i); }
    forall p ensures PositionInv(s', p) { assert PositionInv(s, p); }
  }

  /** The chunk that goes back was at nobody else's place. */
  lemma ReleaseKeepsParties(s: State, op: Op, o: Op)
    requires op in s.receiving && s.receiving[op].moved
    requires ReceiverInv(s, op) && SenderInv(s, o) && ReceiverInv(s, o)
    ensures SenderInv(ReleaseStep(s, op), o) && ReceiverInv(ReleaseStep(s, op), o)
  {
  }

  lemma PostSlotConserves(s: State, op: Op)
    requires Conserved(s) && op in s.returning
    ensures Conserved(PostSlotStep(s, op))
  {
    var s' := PostSlotStep(s, op);
    assert s'.returning.Keys == s.returning.Keys - {op};
  }

  lemma PostSlotKeepsInv(s: State, op: Op)
    requires Inv(s) && op in s.returning
    ensures Inv(PostSlotStep(s, op))
  {
    var s' := PostSlotStep(s, op);
    assert SenderInv(s, op) && ReceiverInv(s, op);
    PostSlotConserves(s, op);
    forall o: Op ensures SenderInv(s', o) { assert SenderInv(s, o); }
    forall o: Op ensures ReceiverInv(s', o) { assert ReceiverInv(s, o); }
    forall i ensures QueuedInv(s', i) { assert QueuedInv(s, i); }
    forall p ensures PositionInv(s', p) { assert PositionInv(s, p); }
  }

  lemma StepKeepsInv(s: State, a: Action)
    requires Inv(s) && StreamInv(s) && Enabled(s, a)
    ensures Inv(Step(s, a)) && StreamInv(Step(s, a)) && Step(s, a).capacity == s.capacity
  {
    NeverFaults(s, a);
    StepKeepsStream(s, a);
    match a
    case TakeSlot(element) => TakeSlotKeepsInv(s, element);
    case Allocate(op) => AllocateKeepsInv(s, op);
    case Construct(op) => ConstructKeepsInv(s, op);
    case Enqueue(op) => EnqueueKeepsInv(s, op);
    case Dequeue => DequeueKeepsInv(s);
    case MoveOut(op) => MoveOutKeepsInv(s, op);
    case Release(op) => ReleaseKeepsInv(s, op);
    case PostSlot(op) => PostSlotKeepsInv(s, op);
  }

  lemma {:induction false} RunKeepsInv(s: State, run: seq<Action>)
    requires Inv(s) && StreamInv(s) && CanRun(s, run)
    ensures Inv(Run(s, run)) && StreamInv(Run(s, run)) && Run(s, run).capacity == s.capacity
    decreases |run|
  {
    if run != [] {
      StepKeepsInv(s, run[0]);
      RunKeepsInv(Step(s, run[0]), run[1..]);
    }
  }

  lemma InitialInv(capacity: nat)
    ensures Inv(Initial(capacity)) && StreamInv(Initial(capacity))
  {
  }

  // Each step of a party under way: it is possible without waiting, and this is what it does

  /** A send is called with its element and takes a slot, if there is one. */
  lemma TakeSlotStartsASend(s: State, element: Element)
    requires Inv(s)
    ensures Enabled(s, TakeSlot(element)) <==> s.tokens > 0
    ensures s.tokens > 0 ==>
      var s' := Step(s, TakeSlot(element));
      && s'.granted == s.granted[s.ops := element] && s'.calls == s.calls[s.ops := element] && s'.ops == s.ops + 1
      && s'.tokens == s.tokens - 1
  {
  }

  /** A sender that got a slot gets the first chunk of the pool. */
  lemma AllocateGetsAChunk(s: State, op: Op)
    requires Inv(s) && op in s.granted
    ensures Enabled(s, Allocate(op)) && s.pool != []
    ensures var s' := Step(s, Allocate(op));
      s'.sending == s.sending[op := Outgoing(s.pool[0], s.granted[op], false)] && s'.pool == s.pool[1..]
  {
    NeverFaults(s, Allocate(op));
  }

  lemma ConstructStoresTheElement(s: State, op: Op)
    requires Inv(s) && op in s.sending && !s.sending[op].built
    ensures Enabled(s, Construct(op))
    ensures var s', o := Step(s, Construct(op)), s.sending[op];
      s'.sending == s.sending[op := Outgoing(o.chunk, o.element, true)] && Stored(s', o.chunk, o.element)
  {
  }

  /** The chunk goes to the end of the FIFO, and the send has its element at the end of the stream. */
  lemma EnqueueSendsTheElement(s: State, op: Op)
    requires Inv(s) && StreamInv(s) && op in s.sending && s.sending[op].built
    ensures Enabled(s, Enqueue(op)) && op in s.calls
    ensures var s' := Step(s, Enqueue(op));
      && s'.sending == s.sending - {op} && s'.fifo == s.fifo + [s.sending[op].chunk]
      && s'.sent == s.sent + [s.calls[op]] && s'.producer == s.producer + [op]
  {
    NeverFaults(s, Enqueue(op));
    assert CallInv(s, op);
  }

  /** A receiver gets the pointer at the front of a FIFO that is not empty. */
  lemma DequeueTakesTheFront(s: State)
    requires Inv(s) && s.fifo != []
    ensures Enabled(s, Dequeue)
    ensures var s' := Step(s, Dequeue);
      && s'.receiving == s.receiving[s.ops := Incoming(s.fifo[0], |s.consumer|, false, 0)]
      && s'.fifo == s.fifo[1..] && s'.consumer == s.consumer + [s.ops]
  {
  }

  /** It moves out the element of its position of the stream. */
  lemma MoveOutTakesTheElement(s: State, op: Op)
    requires Inv(s) && op in s.receiving && !s.receiving[op].moved
    ensures Enabled(s, MoveOut(op))
    ensures var s', r := Step(s, MoveOut(op)), s.receiving[op];
      && r.position < |s.sent|
      && s'.receiving == s.receiving[op := Incoming(r.chunk, r.position, true, s.sent[r.position])]
      && r.chunk !in s'.memory
  {
    NeverFaults(s, MoveOut(op));
    assert ReceiverInv(s, op);
  }

  /** It gives the chunk back to the pool. */
  lemma ReleaseFreesTheChunk(s: State, op: Op)
    requires Inv(s) && op in s.receiving && s.receiving[op].moved
    ensures Enabled(s, Release(op))
    ensures var s', r := Step(s, Release(op)), s.receiving[op];
      && s'.receiving == s.receiving - {op} && s'.returning == s.returning[op := Result(r.position, r.element)]
      && s'.pool == [r.chunk] + s.pool
  {
  }

  /** It posts the slot and returns the element. */
  lemma PostSlotReturnsTheElement(s: State, op: Op)
    requires Inv(s) && op in s.returning
    ensures Enabled(s, PostSlot(op))
    ensures var s' := Step(s, PostSlot(op));
      s'.returning == s.returning - {op} && s'.delivered == s.delivered[op := s.returning[op]] && s'.tokens == s.tokens + 1
  {
  }

  /** Nothing is under way. */
  predicate Quiet(s: State) {
    s.granted == map[] && s.sending == map[] && s.receiving == map[] && s.returning == map[]
  }

  /**
    For any number of senders and receivers and every interleaving: no assertion fails, slots and chunks are
    conserved, every send that got a slot is on its way or has sent its own element, at its own position
    of the stream, and every receive returns the element at its own position.
  */
  lemma QueueIsSafe(capacity: nat, run: seq<Action>)
    requires CanRun(Initial(capacity), run)
    ensures var s := Run(Initial(capacity), run);
      && Conserved(s) && (forall a :: Enabled(s, a) ==> AssertionHolds(s, a))
      && (forall op :: op in s.calls ==> op in s.granted || op in s.sending || Sent(s, op))
      && (forall p, p' :: 0 <= p < p' < |s.producer| ==> s.producer[p] != s.producer[p'])
      && (forall op :: op in s.producer ==> op in s.calls && op !in s.granted && op !in s.sending)
      && (forall op :: op in s.delivered ==> Correct(s, op, s.delivered[op]))
      && (forall op, op' :: op in s.delivered && op' in s.delivered && op != op' ==>
            s.delivered[op].position != s.delivered[op'].position)
  {
    InitialInv(capacity);
    RunKeepsInv(Initial(capacity), run);
    var s := Run(Initial(capacity), run);
    forall op | op in s.delivered ensures Correct(s, op, s.delivered[op]) {
      assert ReceiverInv(s, op);
    }
    SendsAreDistinct(s);
    forall a | Enabled(s, a) ensures AssertionHolds(s, a) { NeverFaults(s, a); }
  }

  lemma SendsAreDistinct(s: State)
    requires StreamInv(s)
    ensures forall op :: op in s.calls ==> op in s.granted || op in s.sending || Sent(s, op)
    ensures forall p, p' :: 0 <= p < p' < |s.producer| ==> s.producer[p] != s.producer[p']
    ensures forall op :: op in s.producer ==> op in s.calls && op !in s.granted && op !in s.sending
  {
    forall op | op in s.calls ensures op in s.granted || op in s.sending || Sent(s, op) { assert CallInv(s, op); }
    forall p, p' | 0 <= p < p' < |s.producer| ensures s.producer[p] != s.producer[p'] {
      assert ProducerInv(s, p) && ProducerInv(s, p');
    }
    forall op | op in s.producer ensures op in s.calls && op !in s.granted && op !in s.sending {
      var p :| 0 <= p < |s.producer| && s.producer[p] == op;
      assert ProducerInv(s, p) && CallInv(s, op);
    }
  }

  /**
    When nothing is under way, the stream holds the element of each send that got a slot, once; its first
    |consumer| elements have been returned, each once, the rest is queued, and senders block only on a full queue.
  */
  lemma QuietQueueIsExact(capacity: nat, run: seq<Action>)
    requires CanRun(Initial(capacity), run) && Quiet(Run(Initial(capacity), run))
    ensures var s := Run(Initial(capacity), run);
      && |s.sent| == |s.producer| == |s.consumer| + |s.fifo|
      && (forall op :: op in s.calls <==> op in s.producer)
      && (forall p :: 0 <= p < |s.producer| ==> s.producer[p] in s.calls && s.sent[p] == s.calls[s.producer[p]])
      && (forall p :: 0 <= p < |s.consumer| ==>
            s.consumer[p] in s.delivered && s.delivered[s.consumer[p]] == Result(p, s.sent[p]))
      && (forall i :: 0 <= i < |s.fifo| ==> Stored(s, s.fifo[i], s.sent[|s.consumer| + i]))
      && (!Enabled(s, TakeSlot(0)) <==> |s.fifo| == capacity)
      && (!Enabled(s, Dequeue) <==> s.tokens == capacity)
  {
    InitialInv(capacity);
    RunKeepsInv(Initial(capacity), run);
    var s := Run(Initial(capacity), run);
    QuietStream(s);
    QuietDeliveries(s);
  }

  lemma QuietDeliveries(s: State)
    requires Inv(s) && Quiet(s)
    ensures |s.sent| == |s.consumer| + |s.fifo|
    ensures forall p :: 0 <= p < |s.consumer| ==>
      s.consumer[p] in s.delivered && s.delivered[s.consumer[p]] == Result(p, s.sent[p])
    ensures forall i :: 0 <= i < |s.fifo| ==> Stored(s, s.fifo[i], s.sent[|s.consumer| + i])
  {
    forall p | 0 <= p < |s.consumer|
      ensures s.consumer[p] in s.delivered && s.delivered[s.consumer[p]] == Result(p, s.sent[p])
    {
      assert PositionInv(s, p) && ReceiverInv(s, s.consumer[p]);
    }
    forall i | 0 <= i < |s.fifo| ensures Stored(s, s.fifo[i], s.sent[|s.consumer| + i]) {
      assert QueuedInv(s, i);
    }
  }

  lemma QuietStream(s: State)
    requires StreamInv(s) && Quiet(s)
    ensures |s.sent| == |s.producer|
    ensures forall op :: op in s.calls <==> op in s.producer
    ensures forall p :: 0 <= p < |s.producer| ==> s.producer[p] in s.calls && s.sent[p] == s.calls[s.producer[p]]
  {
    forall op: Op ensures op in s.calls ==> op in s.producer { assert CallInv(s, op); }
    forall p | 0 <= p < |s.producer| ensures s.producer[p] in s.calls && s.sent[p] == s.calls[s.producer[p]] {
      assert ProducerInv(s, p) && CallInv(s, s.producer[p]);
    }
  }
}
