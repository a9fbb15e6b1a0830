/**
condition_variable::wait(lock, pred) against threads that make the predicate true
under the mutex and call notify_all, before or after unlocking. Any number of
waiters and notifiers interleave; every mutex operation, SVC call, semaphore
operation and head load is one step. The predicate is monotone: once true, it
stays true.
*/
module CondVarProtocol {
  import opened QueueOrder

  type Tid = nat

  datatype Wait =
    | WantLock          // before lock(), at the start or in ~lock_releaser()
    | Checking          // holds the mutex, about to evaluate pred()
    | SawFalse          // holds the mutex, pred() was false, not yet linked
    | Enqueued          // holds the mutex, linked, about to unlock
    | Blocked           // released the mutex, inside m_s.wait() or wait_for()
    | Leaving           // timed out, about to unlink
    | Finished          // pred() was true

  datatype Stage = Idle | PredicateSet | SawHead | Notified

  datatype Notifier = Notifier(holds: bool, stage: Stage)

  datatype Owner = Free | By(t: Tid)

  datatype State = State(
    owner: Owner,
    pred: bool,
    queue: Queue<Tid>,
    waiters: map<Tid, Wait>,
    tokens: set<Tid>,            // waiters whose semaphore holds a token
    notifiers: map<Tid, Notifier>)

  datatype Action =
    | NewWaiter(w: Tid)
    | Lock(w: Tid)
    | Check(w: Tid)
    | Enqueue(w: Tid, prio: int)
    | Unlock(w: Tid)
    | TakeToken(w: Tid)
    | TimeOut(w: Tid)
    | Unlink(w: Tid)
    | NewNotifier(n: Tid)
    | Acquire(n: Tid)
    | SetPredicate(n: Tid)
    | Release(n: Tid)
    | LoadHead(n: Tid)           // the test for an empty queue in _tq::notify_all
    | SvcNotifyAll(n: Tid)

  const INITIAL := State(Free, false, Queue([], 0), map[], {}, map[])

  predicate At(s: State, w: Tid, at: Wait) {
    w in s.waiters && s.waiters[w] == at
  }

  predicate Is(s: State, n: Tid, stage: Stage) {
    n in s.notifiers && s.notifiers[n].stage == stage
  }

  function Linkage(s: State): set<Tid> {
    Members(s.queue.entries)
  }

  predicate Enabled(s: State, a: Action) {
    match a
    case NewWaiter(w) => w !in s.waiters && w !in s.notifiers
    case Lock(w) => At(s, w, WantLock) && s.owner == Free
    case Check(w) => At(s, w, Checking)
    case Enqueue(w, _) => At(s, w, SawFalse)
    case Unlock(w) => At(s, w, Enqueued)
    case TakeToken(w) => At(s, w, Blocked) && w in s.tokens
    case TimeOut(w) => At(s, w, Blocked) && w !in s.tokens
    case Unlink(w) => At(s, w, Leaving)
    case NewNotifier(n) => n !in s.waiters && n !in s.notifiers
    case Acquire(n) => Is(s, n, Idle) && !s.notifiers[n].holds && s.owner == Free
    case SetPredicate(n) => Is(s, n, Idle) && s.notifiers[n].holds
    case Release(n) => n in s.notifiers && s.notifiers[n].holds && !s.notifiers[n].stage.Idle?
    case LoadHead(n) => Is(s, n, PredicateSet)
    case SvcNotifyAll(n) => Is(s, n, SawHead)
  }

  function Goto(s: State, w: Tid, at: Wait): State {
    s.(waiters := s.waiters[w := at])
  }

  function Advance(s: State, n: Tid, to: Notifier): State {
    s.(notifiers := s.notifiers[n := to])
  }

  function Step(s: State, a: Action): State
    requires Enabled(s, a)
  {
    match a
    case NewWaiter(w) => Goto(s, w, WantLock)
    case Lock(w) => Goto(s, w, Checking).(owner := By(w))
    case Check(w) => if s.pred then Goto(s, w, Finished).(owner := Free) else Goto(s, w, SawFalse)
    case Enqueue(w, prio) => Goto(s, w, Enqueued).(queue := Linked(s.queue, w, prio))
    case Unlock(w) => Goto(s, w, Blocked).(owner := Free)
    case TakeToken(w) => Goto(s, w, WantLock).(tokens := s.tokens - {w})
    case TimeOut(w) => Goto(s, w, Leaving)
    case Unlink(w) => Goto(s, w, WantLock).(queue := Unlinked(s.queue, w), tokens := s.tokens - {w})
    case NewNotifier(n) => Advance(s, n, Notifier(false, Idle))
    case Acquire(n) => Advance(s, n, Notifier(true, Idle)).(owner := By(n))
    case SetPredicate(n) => Advance(s, n, Notifier(true, PredicateSet)).(pred := true)
    case Release(n) => Advance(s, n, s.notifiers[n].(holds := false)).(owner := Free)
    case LoadHead(n) =>
      Advance(s, n, s.notifiers[n].(stage := if s.queue.entries == [] then Notified else SawHead))
    case SvcNotifyAll(n) =>
      Advance(s, n, s.notifiers[n].(stage := Notified)).(
        queue := s.queue.(entries := []), tokens := s.tokens + Linkage(s))
  }

  predicate CanRun(s: State, run: seq<Action>)
    decreases |run|
  {
    run == [] || (Enabled(s, run[0]) && CanRun(Step(s, run[0]), run[1..]))
  }

  function Run(s: State, run: seq<Action>): State
    requires CanRun(s, run)
    decreases |run|
  {
    if run == [] then s else Run(Step(s, run[0]), run[1..])
  }

  predicate Holds(s: State, t: Tid) {
    || At(s, t, Checking) || At(s, t, SawFalse) || At(s, t, Enqueued)
    || (t in s.notifiers && s.notifiers[t].holds)
  }

  /** Some notifier has set the predicate and has not done its notify_all yet. */
  ghost predicate NotificationPending(s: State) {
    exists n :: Is(s, n, PredicateSet) || Is(s, n, SawHead)
  }

  ghost predicate ThreadInv(s: State, t: Tid) {
    && (Holds(s, t) <==> s.owner == By(t))
    && !(t in s.waiters && t in s.notifiers)
    && (At(s, t, SawFalse) || At(s, t, Enqueued) ==> !s.pred)
    && (At(s, t, Enqueued) ==> t in Linkage(s))
    && (At(s, t, Blocked) ==> t in Linkage(s) || t in s.tokens)
    && (t in Linkage(s) ==> At(s, t, Enqueued) || At(s, t, Blocked) || At(s, t, Leaving))
    && !(t in Linkage(s) && t in s.tokens)
    && (t in s.tokens ==> At(s, t, Blocked) || At(s, t, Leaving))
    && (t in s.notifiers && !s.notifiers[t].stage.Idle? ==> s.pred)
    && (At(s, t, Finished) ==> s.pred)
  }

  ghost predicate Inv(s: State) {
    && QueueOrder.Inv(s.queue)
    && (forall t: Tid :: ThreadInv(s, t))
    && (s.pred && Linkage(s) != {} ==> NotificationPending(s))
  }

  function Actor(a: Action): Tid {
    match a
    case NewNotifier(n) => n
    case Acquire(n) => n
    case SetPredicate(n) => n
    case Release(n) => n
    case LoadHead(n) => n
    case SvcNotifyAll(n) => n
    case _ => a.w
  }

  lemma QueueStep(s: State, a: Action)
    requires Inv(s) && Enabled(s, a)
    ensures QueueOrder.Inv(Step(s, a).queue)
    ensures Linkage(Step(s, a)) ==
      if a.Enqueue? then Linkage(s) + {a.w} else if a.Unlink? then Linkage(s) - {a.w}
      else if a.SvcNotifyAll? then {} else Linkage(s)
  {
    match a {
      case Enqueue(w, prio) =>
        assert ThreadInv(s, w);
        LinkKeepsInv(s.queue, w, prio);
        LinkedMembers(s.queue, w, prio);
      case Unlink(w) =>
        UnlinkKeepsInv(s.queue, w);
        UnlinkedMembers(s.queue, w);
      case _ =>
    }
  }

  lemma PendingStep(s: State, a: Action)
    requires Inv(s) && Enabled(s, a) && Step(s, a).pred && Linkage(Step(s, a)) != {}
    ensures NotificationPending(Step(s, a))
  {
    QueueStep(s, a);
    var s' := Step(s, a);
    if a.LoadHead? {
      assert Linkage(s) != {} ==> Is(s', a.n, SawHead);
    } else if a.SetPredicate? {
      assert Is(s', a.n, PredicateSet);
    } else if !a.SvcNotifyAll? {
      assert ThreadInv(s, Actor(a));
      var n :| Is(s, n, PredicateSet) || Is(s, n, SawHead);
      DebtStays(s, a, n);
    }
  }

  /** Only the SVC call itself pays the debt of a notifier. */
  lemma DebtStays(s: State, a: Action, n: Tid)
    requires Enabled(s, a) && (Is(s, n, PredicateSet) || Is(s, n, SawHead)) && !a.LoadHead? && !a.SvcNotifyAll?
    ensures Is(Step(s, a), n, PredicateSet) || Is(Step(s, a), n, SawHead)
  {
  }

  /** A step of a thread keeps its own invariant. */
  lemma ActorStep(s: State, a: Action)
    requires ThreadInv(s, Actor(a)) && Enabled(s, a)
    requires Linkage(Step(s, a)) ==
      if a.Enqueue? then Linkage(s) + {a.w} else if a.Unlink? then Linkage(s) - {a.w}
      else if a.SvcNotifyAll? then {} else Linkage(s)
    ensures ThreadInv(Step(s, a), Actor(a))
  {
  }

  predicate IsWaiterAction(a: Action) {
    a.NewWaiter? || a.Lock? || a.Check? || a.Enqueue? || a.Unlock? || a.TakeToken? || a.TimeOut? || a.Unlink?
  }

  /** A step of a waiter keeps the invariant of every other thread. */
  lemma WaiterStep(s: State, a: Action, t: Tid)
    requires ThreadInv(s, t) && ThreadInv(s, Actor(a)) && Enabled(s, a) && t != Actor(a) && IsWaiterAction(a)
    requires Linkage(Step(s, a)) ==
      if a.Enqueue? then Linkage(s) + {a.w} else if a.Unlink? then Linkage(s) - {a.w} else Linkage(s)
    ensures ThreadInv(Step(s, a), t)
  {
  }

  /** A step of a notifier keeps the invariant of every other thread. */
  lemma NotifierStep(s: State, a: Action, t: Tid)
    requires ThreadInv(s, t) && ThreadInv(s, Actor(a)) && Enabled(s, a) && t != Actor(a) && !IsWaiterAction(a)
    requires Linkage(Step(s, a)) == if a.SvcNotifyAll? then {} else Linkage(s)
    ensures ThreadInv(Step(s, a), t)
  {
    assert a.SetPredicate? ==> !Holds(s, t);
  }

  /** A step of one thread keeps the invariant of every other one. */
  lemma OtherStep(s: State, a: Action, t: Tid)
    requires ThreadInv(s, t) && ThreadInv(s, Actor(a)) && Enabled(s, a) && t != Actor(a)
    requires Linkage(Step(s, a)) ==
      if a.Enqueue? then Linkage(s) + {a.w} else if a.Unlink? then Linkage(s) - {a.w}
      else if a.SvcNotifyAll? then {} else Linkage(s)
    ensures ThreadInv(Step(s, a), t)
  {
    if IsWaiterAction(a) { WaiterStep(s, a, t); } else { NotifierStep(s, a, t); }
  }

  lemma StepKeepsInv(s: State, a: Action)
    requires Inv(s) && Enabled(s, a)
    ensures Inv(Step(s, a))
  {
    var s' := Step(s, a);
    QueueStep(s, a);
    if s'.pred && Linkage(s') != {} { PendingStep(s, a); }
    forall t: Tid ensures ThreadInv(s', t) {
      if t == Actor(a) { ActorStep(s, a); } else { OtherStep(s, a, t); }
    }
  }

  lemma {:induction false} RunKeepsInv(s: State, run: seq<Action>)
    requires Inv(s) && CanRun(s, run)
    ensures Inv(Run(s, run))
    decreases |run|
  {
    if run != [] {
      StepKeepsInv(s, run[0]);
      RunKeepsInv(Step(s, run[0]), run[1..]);
    }
  }

  /**
    No lost wake-up: in every reachable state with a true predicate, a waiter that is still linked
    has a notifier that owes its notify_all; once nobody owes one, every blocked waiter has a token.
  */
  lemma NoLostWakeUp(run: seq<Action>, w: Tid)
    requires CanRun(INITIAL, run) && Run(INITIAL, run).pred
    ensures var s := Run(INITIAL, run);
      && (w in Linkage(s) ==> NotificationPending(s))
      && (At(s, w, Blocked) && !NotificationPending(s) ==> Enabled(s, TakeToken(w)))
  {
    RunKeepsInv(INITIAL, run);
    assert ThreadInv(Run(INITIAL, run), w);
  }

  /** wait(lock, pred) returns only with a true predicate. */
  lemma ReturnsOnlyWhenTrue(run: seq<Action>, w: Tid)
    requires CanRun(INITIAL, run) && At(Run(INITIAL, run), w, Finished)
    ensures Run(INITIAL, run).pred
  {
    RunKeepsInv(INITIAL, run);
    assert ThreadInv(Run(INITIAL, run), w);
  }

  /**
    The loop of wait(lock, pred) for a thread that holds the mutex: with a true predicate it returns; with a
    false one it is linked before the mutex is released, and then blocked without the mutex and without a token.
  */
  lemma TestDecides(s: State, w: Tid, prio: int)
    requires Inv(s) && At(s, w, Checking)
    ensures Enabled(s, Check(w))
    ensures s.pred ==> At(Step(s, Check(w)), w, Finished) && Step(s, Check(w)).owner == Free
    ensures !s.pred ==>
      var s1 := Step(s, Check(w));
      && s1.owner == By(w) && Enabled(s1, Enqueue(w, prio))
      && var s2 := Step(s1, Enqueue(w, prio));
      && s2.owner == By(w) && w in Linkage(s2) && Enabled(s2, Unlock(w))
      && var s3 := Step(s2, Unlock(w));
      && s3.owner == Free && At(s3, w, Blocked) && w in Linkage(s3) && w !in s3.tokens
  {
    assert ThreadInv(s, w);
    if !s.pred { LinkedMembers(s.queue, w, prio); }
  }

  /** A new waiter takes the mutex first. A thread that is woken, or has timed out, takes the mutex again and tests the predicate again. */
  lemma WokenTestsAgain(s: State, w: Tid)
    requires Inv(s)
    ensures w !in s.waiters && w !in s.notifiers ==> Enabled(s, NewWaiter(w)) && At(Step(s, NewWaiter(w)), w, WantLock)
    ensures At(s, w, Blocked) && w in s.tokens ==> Enabled(s, TakeToken(w)) && At(Step(s, TakeToken(w)), w, WantLock)
    ensures At(s, w, Blocked) && w !in s.tokens ==>
      Enabled(s, TimeOut(w)) && Enabled(Step(s, TimeOut(w)), Action.Unlink(w)) && At(Step(Step(s, TimeOut(w)), Action.Unlink(w)), w, WantLock)
    ensures At(s, w, WantLock) && s.owner == Free ==> Enabled(s, Lock(w)) && At(Step(s, Lock(w)), w, Checking)
  {
    assert ThreadInv(s, w);
  }

  /** A notifier makes the predicate true under the mutex; its notify_all wakes every waiter that is linked. */
  lemma NotifyAllWakesEverybody(s: State, n: Tid)
    requires Inv(s)
    ensures n !in s.waiters && n !in s.notifiers ==> Enabled(s, NewNotifier(n)) && Is(Step(s, NewNotifier(n)), n, Idle)
    ensures Is(s, n, Idle) && s.owner == Free ==> Enabled(s, Acquire(n)) && Enabled(Step(s, Acquire(n)), SetPredicate(n))
    ensures Is(s, n, Idle) && s.notifiers[n].holds ==> Enabled(s, SetPredicate(n)) && Step(s, SetPredicate(n)).pred
    ensures Is(s, n, PredicateSet) ==> Enabled(s, LoadHead(n))
    ensures Is(s, n, PredicateSet) && Linkage(s) == {} ==> Is(Step(s, LoadHead(n)), n, Notified)
    ensures Is(s, n, PredicateSet) && Linkage(s) != {} ==> Enabled(Step(s, LoadHead(n)), SvcNotifyAll(n))
    ensures Is(s, n, SawHead) ==> Enabled(s, SvcNotifyAll(n)) && Is(Step(s, SvcNotifyAll(n)), n, Notified)
    ensures Is(s, n, SawHead) ==>
      var s' := Step(s, SvcNotifyAll(n));
      Linkage(s') == {} && s'.tokens == s.tokens + Linkage(s) && forall w :: At(s, w, Blocked) ==> Enabled(s', TakeToken(w))
  {
    assert s.queue.entries != [] ==> s.queue.entries[0].who in Linkage(s);
    assert ThreadInv(s, n);
    forall w | At(s, w, Blocked) ensures w in Linkage(s) || w in s.tokens {
      assert ThreadInv(s, w);
    }
  }

  /** The mutex is held by at most one thread, and a thread blocked on a semaphore does not hold it. */
  lemma MutualExclusion(run: seq<Action>, t: Tid, u: Tid)
    requires CanRun(INITIAL, run) && Holds(Run(INITIAL, run), t) && Holds(Run(INITIAL, run), u)
    ensures t == u && !At(Run(INITIAL, run), t, Blocked)
  {
    RunKeepsInv(INITIAL, run);
    assert ThreadInv(Run(INITIAL, run), t) && ThreadInv(Run(INITIAL, run), u);
  }
}
