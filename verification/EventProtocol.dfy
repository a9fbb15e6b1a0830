/**
latch and synchronic: a waiter links its node first and evaluates its condition
afterwards; a publisher changes the value first and calls notify_all afterwards.
There is no mutex. Any number of threads interleave, one atomic operation, SVC call,
head load or semaphore operation at a time.
*/
module EventProtocol {
  import opened QueueOrder

  type Tid = nat

  /** latch::wait, synchronic::expect(desired) and synchronic::expect_update(current). */
  datatype Wish = CountZero | Equals(desired: int) | Differs(current: int)

  predicate Satisfied(wish: Wish, value: int) {
    match wish
    case CountZero => !(value > 0)
    case Equals(d) => value == d
    case Differs(c) => value != c
  }

  datatype Wait =
    | Linked(wish: Wish)      // linked, condition not evaluated yet
    | Blocked(wish: Wish)     // the condition was false, inside m_s.wait()
    | Leaving(wish: Wish, seen: int)   // the condition was true of the value seen, before ~_t()
    | Retrying(wish: Wish)    // synchronic only: woken, about to link a new node

  datatype Publish = MustNotify | SawHead

  /** A latch counts down, a synchronic object stores values; the two never mix on one queue. */
  datatype Kind = Latch | Synchronic

  /** A call that has returned, with the value it relied on. */
  datatype Answer = Answer(wish: Wish, seen: int)

  /** answers is history. */
  datatype State = State(
    kind: Kind,
    value: int,
    queue: Queue<Tid>,
    waiters: map<Tid, Wait>,
    tokens: set<Tid>,
    publishers: map<Tid, Publish>,
    answers: seq<Answer>)

  datatype Action =
    | Enqueue(t: Tid, wish: Wish, prio: int)
    | Check(t: Tid)                     // if (m_count > 0), if (object.load() == desired)
    | DecrementAndCheck(t: Tid)         // if (--m_count > 0) in count_down_and_wait
    | TakeToken(t: Tid)
    | Unlink(t: Tid)
    | CountDown(t: Tid, n: nat)
    | Store(t: Tid, v: int)
    | LoadHead(t: Tid)
    | SvcNotifyAll(t: Tid)

  function Initial(kind: Kind, value: int): State {
    State(kind, value, Queue([], 0), map[], {}, map[], [])
  }

  function Linkage(s: State): set<Tid> {
    Members(s.queue.entries)
  }

  predicate Enabled(s: State, a: Action) {
    match a
    case Enqueue(t, wish, _) => (t in s.waiters ==> s.waiters[t] == Retrying(wish)) && (s.kind.Latch? <==> wish.CountZero?)
    case Check(t) => t in s.waiters && s.waiters[t].Linked?
    case DecrementAndCheck(t) => s.kind.Latch? && t in s.waiters && s.waiters[t].Linked?
    case TakeToken(t) => t in s.waiters && s.waiters[t].Blocked? && t in s.tokens
    case Unlink(t) => t in s.waiters && s.waiters[t].Leaving?
    case CountDown(t, n) => s.kind.Latch? && t !in s.publishers && n <= s.value
    case Store(t, _) => s.kind.Synchronic? && t !in s.publishers
    case LoadHead(t) => t in s.publishers && s.publishers[t].MustNotify?
    case SvcNotifyAll(t) => t in s.publishers && s.publishers[t].SawHead?
  }

  function Decide(s: State, t: Tid, value: int): State
    requires t in s.waiters && s.waiters[t].Linked?
  {
    var wish := s.waiters[t].wish;
    s.(value := value, waiters := s.waiters[t := if Satisfied(wish, value) then Leaving(wish, value) else Blocked(wish)])
  }

  function Step(s: State, a: Action): State
    requires Enabled(s, a)
  {
    match a
    case Enqueue(t, wish, prio) =>
      s.(queue := QueueOrder.Linked(s.queue, t, prio), waiters := s.waiters[t := Linked(wish)])
    case Check(t) => Decide(s, t, s.value)
    case DecrementAndCheck(t) => Decide(s, t, s.value - 1)
    case TakeToken(t) =>
      var wish := s.waiters[t].wish;
      if s.kind.Latch?
      then s.(waiters := s.waiters - {t}, tokens := s.tokens - {t}, answers := s.answers + [Answer(wish, s.value)])
      else s.(waiters := s.waiters[t := Retrying(wish)], tokens := s.tokens - {t})
    case Unlink(t) =>
      s.(queue := Unlinked(s.queue, t), waiters := s.waiters - {t}, tokens := s.tokens - {t},
         answers := s.answers + [Answer(s.waiters[t].wish, s.waiters[t].seen)])
    case CountDown(t, n) =>
      var v := s.value - n;
      s.(value := v, publishers := if v == 0 then s.publishers[t := MustNotify] else s.publishers)
    case Store(t, v) =>
      s.(value := v, publishers := s.publishers[t := MustNotify])
    case LoadHead(t) =>
      s.(publishers := if s.queue.entries == [] then s.publishers - {t} else s.publishers[t := SawHead])
    case SvcNotifyAll(t) =>
      s.(queue := s.queue.(entries := []), tokens := s.tokens + Linkage(s), publishers := s.publishers - {t})
  }

  predicate CanRun(s: State, run: seq<Action>)
    decreases |run|
  {
    run == [] || (Enabled(s, run[0]) && CanRun(Step(s, run[0]), run[1..]))
  }

  function Run(s: State, run: seq<Action>): State
    requires CanRun(s, run)
    decreases |run|
  {
    if run == [] then s else Run(Step(s, run[0]), run[1..])
  }

  predicate BlockedAndLinked(s: State, t: Tid) {
    t in s.waiters && s.waiters[t].Blocked? && t in Linkage(s)
  }

  /** t sleeps although its condition holds. */
  predicate Oversleeps(s: State, t: Tid) {
    BlockedAndLinked(s, t) && Satisfied(s.waiters[t].wish, s.value)
  }

  /** Whoever oversleeps is going to be woken: some publisher still owes its notify_all. */
  ghost predicate NobodyLost(s: State) {
    forall t: Tid :: Oversleeps(s, t) ==> s.publishers != map[]
  }

  ghost predicate ThreadInv(s: State, t: Tid) {
    && (t in Linkage(s) || t in s.tokens ==> t in s.waiters && !s.waiters[t].Retrying?)
    && !(t in s.tokens && t in Linkage(s))
    && (t in s.waiters && (s.waiters[t].Linked? || s.waiters[t].Blocked?) ==> t in Linkage(s) || t in s.tokens)
    && (t in s.waiters ==> (s.kind.Latch? <==> s.waiters[t].wish.CountZero?))
    && (t in s.waiters && s.waiters[t].Leaving? ==> Satisfied(s.waiters[t].wish, s.waiters[t].seen))
  }

  ghost predicate Shape(s: State) {
    && QueueOrder.Inv(s.queue)
    && (forall t: Tid :: ThreadInv(s, t))
    && AnswersInv(s)
  }

  lemma QueueStep(s: State, a: Action)
    requires Shape(s) && Enabled(s, a)
    ensures QueueOrder.Inv(Step(s, a).queue)
    ensures Linkage(Step(s, a)) ==
      if a.Enqueue? then Linkage(s) + {a.t} else if a.Unlink? then Linkage(s) - {a.t}
      else if a.SvcNotifyAll? then {} else Linkage(s)
  {
    match a {
      case Enqueue(t, _, prio) =>
        assert ThreadInv(s, t);
        LinkKeepsInv(s.queue, t, prio);
        LinkedMembers(s.queue, t, prio);
      case Unlink(t) =>
        UnlinkKeepsInv(s.queue, t);
        UnlinkedMembers(s.queue, t);
      case _ =>
    }
  }

  lemma StepKeepsThread(s: State, a: Action, t: Tid)
    requires ThreadInv(s, t) && ThreadInv(s, a.t) && Enabled(s, a)
    requires Linkage(Step(s, a)) ==
      if a.Enqueue? then Linkage(s) + {a.t} else if a.Unlink? then Linkage(s) - {a.t}
      else if a.SvcNotifyAll? then {} else Linkage(s)
    ensures ThreadInv(Step(s, a), t)
  {
  }

  ghost predicate AnswersInv(s: State) {
    && (s.kind.Latch? && (s.publishers != map[] || s.tokens != {}) ==> s.value <= 0)
    && (forall i :: 0 <= i < |s.answers| ==> Satisfied(s.answers[i].wish, s.answers[i].seen))
  }

  lemma StepKeepsAnswers(s: State, a: Action)
    requires AnswersInv(s) && ThreadInv(s, a.t) && Enabled(s, a)
    ensures AnswersInv(Step(s, a))
  {
  }

  lemma StepKeepsShape(s: State, a: Action)
    requires Shape(s) && Enabled(s, a)
    ensures Shape(Step(s, a))
  {
    QueueStep(s, a);
    assert ThreadInv(s, a.t);
    StepKeepsAnswers(s, a);
    forall t: Tid ensures ThreadInv(Step(s, a), t) {
      assert ThreadInv(s, t);
      StepKeepsThread(s, a, t);
    }
  }

  /** The decrement of count_down_and_wait that reaches zero while another thread sleeps: nobody is notified. */
  ghost predicate SilentRelease(s: State, a: Action) {
    a.DecrementAndCheck? && s.value == 1 && exists u :: u != a.t && BlockedAndLinked(s, u)
  }

  /** The exact condition under which one step loses nobody. */
  lemma StepLosesNobody(s: State, a: Action)
    requires Shape(s) && NobodyLost(s) && Enabled(s, a)
    ensures NobodyLost(Step(s, a)) <==> !SilentRelease(s, a)
  {
    var s' := Step(s, a);
    QueueStep(s, a);
    if SilentRelease(s, a) {
      var u :| u != a.t && BlockedAndLinked(s, u);
      assert ThreadInv(s, u);
      assert Oversleeps(s', u);
    } else {
      forall t: Tid | Oversleeps(s', t) ensures s'.publishers != map[] {
        assert ThreadInv(s, t);
        assert BlockedAndLinked(s, t) || a.t == t;
        if a.DecrementAndCheck? {
          assert a.t != t && BlockedAndLinked(s, t);
          assert Oversleeps(s, t);
        } else if a.CountDown? || a.Store? {
          assert a.t in s'.publishers;
        } else {
          assert Oversleeps(s, t);
          if a.LoadHead? { assert s.queue.entries != []; assert a.t in s'.publishers; }
        }
      }
    }
  }

  ghost predicate NoSilentRelease(s: State, run: seq<Action>)
    requires CanRun(s, run)
    decreases |run|
  {
    run == [] || (!SilentRelease(s, run[0]) && NoSilentRelease(Step(s, run[0]), run[1..]))
  }

  lemma {:induction false} RunLosesNobody(s: State, run: seq<Action>)
    requires Shape(s) && NobodyLost(s) && CanRun(s, run) && NoSilentRelease(s, run)
    ensures Shape(Run(s, run)) && NobodyLost(Run(s, run))
    decreases |run|
  {
    if run != [] {
      StepKeepsShape(s, run[0]);
      StepLosesNobody(s, run[0]);
      RunLosesNobody(Step(s, run[0]), run[1..]);
    }
  }

  /**
    No lost wake-up for latch::wait, expect and expect_update, in every interleaving: if a sleeping
    thread's condition holds, a publisher owes a notify_all; when nobody owes one, the thread has a token
    or its condition is false.
  */
  lemma NoLostWakeUp(kind: Kind, value: int, run: seq<Action>, t: Tid)
    requires CanRun(Initial(kind, value), run) && NoSilentRelease(Initial(kind, value), run)
    ensures var s := Run(Initial(kind, value), run);
      t in s.waiters && s.waiters[t].Blocked? && s.publishers == map[] && Satisfied(s.waiters[t].wish, s.value)
      ==> Enabled(s, TakeToken(t))
  {
    RunLosesNobody(Initial(kind, value), run);
    var s := Run(Initial(kind, value), run);
    assert ThreadInv(s, t) && (Oversleeps(s, t) ==> s.publishers != map[]);
  }

  lemma {:induction false} RunKeepsShape(s: State, run: seq<Action>)
    requires Shape(s) && CanRun(s, run)
    ensures Shape(Run(s, run))
    decreases |run|
  {
    if run != [] {
      StepKeepsShape(s, run[0]);
      RunKeepsShape(Step(s, run[0]), run[1..]);
    }
  }

  /** A call returns only on a value it waits for: a latch at zero or below, the desired value, a value that is not the current one. */
  lemma ReturnsOnlyOnTheValue(kind: Kind, value: int, run: seq<Action>, i: nat)
    requires CanRun(Initial(kind, value), run) && i < |Run(Initial(kind, value), run).answers|
    ensures var r := Run(Initial(kind, value), run).answers[i];
      match r.wish
      case CountZero => r.seen <= 0
      case Equals(desired) => r.seen == desired
      case Differs(current) => r.seen != current
  {
    RunKeepsShape(Initial(kind, value), run);
  }

  /**
    The test of a waiter that is linked: on a value it waits for it leaves the queue and returns, on any other one it
    blocks, linked or with a token. A woken thread of a synchronic object links a new node with the same wish.
  */
  lemma TestDecides(s: State, t: Tid, prio: int)
    requires Shape(s) && t in s.waiters
    ensures s.waiters[t].Linked? ==> Enabled(s, Check(t))
    ensures s.waiters[t].Linked? ==>
      var wish, s' := s.waiters[t].wish, Step(s, Check(t));
      var met := match wish case CountZero => s.value <= 0 case Equals(d) => s.value == d case Differs(c) => s.value != c;
      if met then s'.waiters[t] == Leaving(wish, s.value) && Enabled(s', Action.Unlink(t))
      else s'.waiters[t] == Blocked(wish) && (t in Linkage(s') || t in s'.tokens)
    ensures s.waiters[t].Linked? && s.kind.Latch? ==>
      var s' := Step(s, DecrementAndCheck(t));
      s'.value == s.value - 1 && s'.waiters[t] == if s.value <= 1 then Leaving(CountZero, s.value - 1) else Blocked(CountZero)
    ensures s.waiters[t].Leaving? ==>
      var s' := Step(s, Action.Unlink(t));
      && t !in Linkage(s') && t !in s'.waiters && t !in s'.tokens
      && s'.answers == s.answers + [Answer(s.waiters[t].wish, s.waiters[t].seen)]
    ensures s.waiters[t].Blocked? && t in s.tokens ==> Enabled(s, TakeToken(t))
    ensures s.waiters[t].Blocked? && t in s.tokens && s.kind.Latch? ==>
      var s' := Step(s, TakeToken(t)); t !in s'.waiters && s'.answers == s.answers + [Answer(CountZero, s.value)]
    ensures s.waiters[t].Blocked? && t in s.tokens && s.kind.Synchronic? ==>
      Enabled(Step(s, TakeToken(t)), Enqueue(t, s.waiters[t].wish, prio))
  {
    assert ThreadInv(s, t);
    if s.waiters[t].Leaving? {
      UnlinkedMembers(s.queue, t);
    }
  }

  /** A value that is published is seen from then on, and its publisher wakes every waiter that is linked. */
  lemma PublishingWakesEverybody(s: State, t: Tid, n: nat, v: int)
    requires Shape(s)
    ensures s.kind.Synchronic? && t !in s.publishers ==>
      && Enabled(s, Store(t, v)) && Step(s, Store(t, v)).value == v && Enabled(Step(s, Store(t, v)), LoadHead(t))
    ensures s.kind.Latch? && t !in s.publishers && n <= s.value ==>
      && Enabled(s, CountDown(t, n))
      && var s' := Step(s, CountDown(t, n));
      s'.value == s.value - n && if s.value == n then Enabled(s', LoadHead(t)) else t !in s'.publishers
    ensures Enabled(s, LoadHead(t)) ==>
      var s' := Step(s, LoadHead(t));
      if Linkage(s) == {} then t !in s'.publishers else Enabled(s', SvcNotifyAll(t))
    ensures Enabled(s, SvcNotifyAll(t)) ==>
      var s' := Step(s, SvcNotifyAll(t));
      Linkage(s') == {} && s'.tokens == s.tokens + Linkage(s) && t !in s'.publishers
  {
    assert s.queue.entries != [] ==> s.queue.entries[0].who in Linkage(s);
  }

  /** A synchronic object never has a silent release, so its guarantee is unconditional. */
  lemma {:induction false} SynchronicIsNeverSilent(s: State, run: seq<Action>)
    requires s.kind.Synchronic? && CanRun(s, run)
    ensures NoSilentRelease(s, run)
    decreases |run|
  {
    if run != [] {
      SynchronicIsNeverSilent(Step(s, run[0]), run[1..]);
    }
  }

  /** The condition cannot be dropped: a latch of one, a sleeper, and count_down_and_wait by another thread. */
  lemma CountDownAndWaitCanLoseASleeper()
    ensures var run := [Enqueue(1, CountZero, 0), Check(1), Enqueue(2, CountZero, 0), DecrementAndCheck(2)];
      CanRun(Initial(Latch, 1), run) &&
      var s := Run(Initial(Latch, 1), run);
      Oversleeps(s, 1) && s.publishers == map[] && !Enabled(s, TakeToken(1))
  {
    var run := [Enqueue(1, CountZero, 0), Check(1), Enqueue(2, CountZero, 0), DecrementAndCheck(2)];
    var s0 := Initial(Latch, 1);
    var s1 := Step(s0, run[0]);
    LinkedMembers(s0.queue, 1, 0);
    var s2 := Step(s1, run[1]);
    var s3 := Step(s2, run[2]);
    LinkedMembers(s2.queue, 2, 0);
    var s4 := Step(s3, run[3]);
    assert run[1..][1..] == run[2..] && run[2..][1..] == run[3..] && run[3..][1..] == [];
    assert CanRun(s4, []) && CanRun(s3, run[3..]) && CanRun(s2, run[2..]) && CanRun(s1, run[1..]);
    assert Run(s2, run[2..]) == Run(s3, run[3..]) == Run(s4, []);
    assert Run(s0, run) == Run(s1, run[1..]) == Run(s2, run[2..]);
  }
}
