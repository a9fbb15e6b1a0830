/**
lock(lockable1, lockable2) for any number of threads and any pairs of mutexes: block on
one, try the other, give up and swap the roles. Each lock, try_lock and unlock of a
mutex is one step.
*/
module LockPair {

  type Tid = nat
  type MutexId = nat

  /** Which mutex the loop blocks on and which one it then tries. */
  datatype Stage =
    | Blocking(a: MutexId, b: MutexId)     // unique_lock lock(a)
    | Trying(a: MutexId, b: MutexId)       // holds a, about to call b.try_lock()
    | GivingUp(a: MutexId, b: MutexId)     // try_lock failed, about to unlock a
    | Locked(a: MutexId, b: MutexId)       // lock() has returned
    | Unlocking(b: MutexId)                // the caller has unlocked a

  /** calls is history: the pair each thread called lock() with. */
  datatype State = State(owner: map<MutexId, Tid>, threads: map<Tid, Stage>, calls: map<Tid, (MutexId, MutexId)>)

  datatype Action =
    | Call(t: Tid, a: MutexId, b: MutexId)
    | Lock(t: Tid)
    | TryLock(t: Tid)
    | GiveUp(t: Tid)
    | UnlockFirst(t: Tid)
    | UnlockSecond(t: Tid)

  const IDLE := State(map[], map[], map[])

  predicate Enabled(s: State, a: Action) {
    match a
    case Call(t, _, _) => t !in s.threads
    case Lock(t) => t in s.threads && s.threads[t].Blocking? && s.threads[t].a !in s.owner
    case TryLock(t) => t in s.threads && s.threads[t].Trying?
    case GiveUp(t) => t in s.threads && s.threads[t].GivingUp?
    case UnlockFirst(t) => t in s.threads && s.threads[t].Locked?
    case UnlockSecond(t) => t in s.threads && s.threads[t].Unlocking?
  }

  function Step(s: State, act: Action): State
    requires Enabled(s, act)
  {
    match act
    case Call(t, a, b) => s.(threads := s.threads[t := Blocking(a, b)], calls := s.calls[t := (a, b)])
    case Lock(t) =>
      var p := s.threads[t];
      s.(owner := s.owner[p.a := t], threads := s.threads[t := Trying(p.a, p.b)])
    case TryLock(t) =>
      var p := s.threads[t];
      if p.b in s.owner then s.(threads := s.threads[t := GivingUp(p.a, p.b)])
      else s.(owner := s.owner[p.b := t], threads := s.threads[t := Locked(p.a, p.b)])
    case GiveUp(t) =>
      var p := s.threads[t];
      s.(owner := s.owner - {p.a}, threads := s.threads[t := Blocking(p.b, p.a)])
    case UnlockFirst(t) =>
      var p := s.threads[t];
      s.(owner := s.owner - {p.a}, threads := s.threads[t := Unlocking(p.b)])
    case UnlockSecond(t) =>
      s.(owner := s.owner - {s.threads[t].b}, threads := s.threads - {t})
  }

  predicate CanRun(s: State, run: seq<Action>)
    decreases |run|
  {
    run == [] || (Enabled(s, run[0]) && CanRun(Step(s, run[0]), run[1..]))
  }

  function Run(s: State, run: seq<Action>): State
    requires CanRun(s, run)
    decreases |run|
  {
    if run == [] then s else Run(Step(s, run[0]), run[1..])
  }

  /** The mutexes a thread at this point of lock() must hold. */
  function Held(p: Stage): set<MutexId> {
    match p
    case Blocking(_, _) => {}
    case Trying(a, _) => {a}
    case GivingUp(a, _) => {a}
    case Locked(a, b) => {a, b}
    case Unlocking(b) => {b}
  }

  predicate Owns(s: State, t: Tid, m: MutexId) {
    m in s.owner && s.owner[m] == t
  }

  /** The thread works on the two mutexes of its call, in one order or the other. */
  predicate KeepsToItsCall(s: State, t: Tid) {
    t in s.threads && !s.threads[t].Unlocking? ==>
      var p := s.threads[t];
      t in s.calls && (s.calls[t] == (p.a, p.b) || s.calls[t] == (p.b, p.a))
  }

  ghost predicate Inv(s: State) {
    && (forall t: Tid :: KeepsToItsCall(s, t))
    && (forall t, m :: t in s.threads ==> (m in Held(s.threads[t]) <==> Owns(s, t, m)))
    && (forall m :: m in s.owner ==> s.owner[m] in s.threads)
    && (forall t :: t in s.threads && s.threads[t].Locked? ==> s.threads[t].a != s.threads[t].b)
  }

  lemma StepKeepsInv(s: State, act: Action)
    requires Inv(s) && Enabled(s, act)
    ensures Inv(Step(s, act))
  {
    var s' := Step(s, act);
    forall t, m | t in s'.threads ensures m in Held(s'.threads[t]) <==> Owns(s', t, m) {
      assert t in s.threads ==> (m in Held(s.threads[t]) <==> Owns(s, t, m));
      assert Owns(s, act.t, m) ==> act.t in s.threads;
      assert act.t in s.threads ==> (m in Held(s.threads[act.t]) <==> Owns(s, act.t, m));
    }
    forall m | m in s'.owner ensures s'.owner[m] in s'.threads {
      assert m in s.owner ==> s.owner[m] in s.threads && Owns(s, s.owner[m], m);
      assert act.t in s.threads ==> (m in Held(s.threads[act.t]) <==> Owns(s, act.t, m));
    }
    forall t: Tid ensures KeepsToItsCall(s', t) { assert KeepsToItsCall(s, t); }
    if act.TryLock? {
      assert s.threads[act.t].a in Held(s.threads[act.t]);
      assert Owns(s, act.t, s.threads[act.t].a);
    }
  }

  lemma {:induction false} RunKeepsInv(s: State, run: seq<Action>)
    requires Inv(s) && CanRun(s, run)
    ensures Inv(Run(s, run))
    decreases |run|
  {
    if run != [] {
      StepKeepsInv(s, run[0]);
      RunKeepsInv(Step(s, run[0]), run[1..]);
    }
  }

  /** A thread that blocks owns nothing; on return it owns exactly the two mutexes it called lock() with, and they are distinct. */
  lemma LockOwnsBothOrNothing(run: seq<Action>, t: Tid, m: MutexId)
    requires CanRun(IDLE, run) && t in Run(IDLE, run).threads
    ensures var s := Run(IDLE, run); var p := s.threads[t];
      && (p.Blocking? ==> !Owns(s, t, m))
      && (p.Locked? ==> t in s.calls && {p.a, p.b} == {s.calls[t].0, s.calls[t].1})
      && (p.Locked? ==> p.a != p.b && Owns(s, t, p.a) && Owns(s, t, p.b) && (Owns(s, t, m) ==> m == p.a || m == p.b))
  {
    RunKeepsInv(IDLE, run);
    assert KeepsToItsCall(Run(IDLE, run), t);
  }

  /**
    The attempts of a call: it takes the mutex it blocks on as soon as that is free, returns exactly if the other one is
    free, and otherwise gives the first one back and blocks on the one that was not available.
  */
  lemma AttemptsOfACall(s: State, t: Tid)
    requires Inv(s) && t in s.threads
    ensures var p := s.threads[t];
      && (p.Blocking? ==> (Enabled(s, Lock(t)) <==> p.a !in s.owner))
      && (p.Blocking? && p.a !in s.owner ==> Step(s, Lock(t)).threads[t] == Trying(p.a, p.b) && Owns(Step(s, Lock(t)), t, p.a))
      && (p.Trying? ==> Enabled(s, TryLock(t)))
      && (p.Trying? ==> Step(s, TryLock(t)).threads[t] == if p.b !in s.owner then Locked(p.a, p.b) else GivingUp(p.a, p.b))
      && (p.GivingUp? ==> Enabled(s, GiveUp(t)))
      && (p.GivingUp? ==> Step(s, GiveUp(t)).threads[t] == Blocking(p.b, p.a) && p.a !in Step(s, GiveUp(t)).owner)
  {
  }

  /** The step of t that does not wait for anybody, or the blocking lock. */
  function NextAction(t: Tid, p: Stage): Action {
    match p
    case Blocking(_, _) => Lock(t)
    case Trying(_, _) => TryLock(t)
    case GivingUp(_, _) => GiveUp(t)
    case Locked(_, _) => UnlockFirst(t)
    case Unlocking(_) => UnlockSecond(t)
  }

  /** Deadlock freedom: whoever took which pair in which order, as long as some thread is not done, some thread can move. */
  lemma NoDeadlock(run: seq<Action>, t: Tid)
    requires CanRun(IDLE, run) && t in Run(IDLE, run).threads
    ensures var s := Run(IDLE, run);
      exists u :: u in s.threads && Enabled(s, NextAction(u, s.threads[u]))
  {
    RunKeepsInv(IDLE, run);
    var s := Run(IDLE, run);
    var p := s.threads[t];
    if p.Blocking? && p.a in s.owner {
      var u := s.owner[p.a];
      assert Owns(s, u, p.a) && !s.threads[u].Blocking?;
      assert Enabled(s, NextAction(u, s.threads[u]));
    } else {
      assert Enabled(s, NextAction(t, p));
    }
  }

  ghost predicate Reaches(run: seq<Action>, t: Tid, p: Stage) {
    CanRun(IDLE, run) && t in Run(IDLE, run).threads && Run(IDLE, run).threads[t] == p
  }

  /** A call can return exactly if the two mutexes are distinct; on the same mutex twice it gives up and starts over for ever. */
  lemma ReturnsExactlyOnDistinct(t: Tid, a: MutexId, b: MutexId)
    ensures (exists run :: Reaches(run, t, Locked(a, b))) <==> a != b
  {
    forall run | Reaches(run, t, Locked(a, b)) ensures a != b {
      RunKeepsInv(IDLE, run);
    }
    if a != b {
      var run := [Call(t, a, b), Lock(t), TryLock(t)];
      var s1 := Step(IDLE, run[0]);
      var s2 := Step(s1, run[1]);
      var s3 := Step(s2, run[2]);
      assert run[1..][1..] == run[2..] && run[2..][1..] == [];
      assert CanRun(s3, []) && CanRun(s2, run[2..]) && CanRun(s1, run[1..]);
      assert Run(s1, run[1..]) == Run(s2, run[2..]) == s3;
      assert Reaches(run, t, Locked(a, b));
    }
  }
}
