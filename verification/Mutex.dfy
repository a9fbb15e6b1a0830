/**
std::mutex of src/_cmsis_rtos/_mutex.cpp: a non-recursive mutex made from the
recursive kernel mutex and the flag m_locked. First the operations as a class, then
the same operations taken apart into their kernel calls and flag accesses and
interleaved for any number of threads.
*/
module Mutex {
  import opened Wrappers

  type Tid = nat

  datatype LockResult = Acquired | DeadlockError | KernelError

  class Mutex {
    var owner: Option<Tid>   // the kernel mutex
    var level: nat
    var locked: bool         // m_locked

    predicate Valid()
      reads this
    {
      && (owner.Some? <==> level == 1)
      && level <= 1
      && (locked <==> level == 1)
    }

    constructor ()
      ensures Valid() && owner == None
    {
      owner := None;
      level := 0;
      locked := false;
    }

    /** osMutexWait without waiting: grants a free mutex or one that t owns already. */
    method KernelWait(t: Tid) returns (granted: bool)
      modifies this`owner, this`level
      ensures granted <==> old(level) == 0 || old(owner) == Some(t)
      ensures if granted then owner == Some(t) && level == old(level) + 1 else owner == old(owner) && level == old(level)
    {
      granted := level == 0 || owner == Some(t);
      if granted {
        owner := Some(t);
        level := level + 1;
      }
    }

    /** osMutexRelease by the owner. */
    method KernelRelease(t: Tid)
      requires owner == Some(t) && level > 0
      modifies this`owner, this`level
      ensures level == old(level) - 1 && owner == if level == 0 then None else Some(t)
    {
      level := level - 1;
      if level == 0 {
        owner := None;
      }
    }

    /** lock(), at the moment the kernel lets the thread go on. Locking twice is undone and reported. */
    method Lock(t: Tid, kernelFails: bool) returns (result: LockResult)
      requires Valid() && (!kernelFails && owner.Some? ==> owner == Some(t))
      modifies this
      ensures Valid()
      ensures result == if kernelFails then KernelError else if old(owner).Some? then DeadlockError else Acquired
      ensures owner == if result.Acquired? then Some(t) else old(owner)
    {
      if kernelFails {
        return KernelError;
      }
      var granted := KernelWait(t);
      if !locked {
        locked := true;
        return Acquired;
      }
      KernelRelease(t);
      return DeadlockError;
    }

    /** try_lock(): succeeds exactly on a free mutex; a mutex the caller holds is left locked once. */
    method TryLock(t: Tid) returns (success: bool)
      requires Valid()
      modifies this
      ensures Valid()
      ensures success <==> old(owner) == None
      ensures owner == if success then Some(t) else old(owner)
    {
      var granted := KernelWait(t);
      if !granted {
        return false;
      }
      if !locked {
        locked := true;
        return true;
      }
      KernelRelease(t);
      return false;
    }

    /** unlock() by the thread that holds the mutex. */
    method Unlock(t: Tid)
      requires Valid() && owner == Some(t)
      modifies this
      ensures Valid() && owner == None
    {
      locked := false;
      KernelRelease(t);
    }
  }

  /**
    try_lock(l1, l2): -1 with both locked, or the index of the mutex that was not available with both
    as they were before; the same mutex twice counts as the second one not being available.
  */
  method TryLockBoth(t: Tid, l1: Mutex, l2: Mutex) returns (failed: int)
    requires l1.Valid() && l2.Valid()
    modifies l1, l2
    ensures l1.Valid() && l2.Valid()
    ensures failed == if old(l1.owner).Some? then 0 else if l1 == l2 || old(l2.owner).Some? then 1 else -1
    ensures if failed == -1 then l1.owner == Some(t) && l2.owner == Some(t)
            else l1.owner == old(l1.owner) && l2.owner == old(l2.owner)
  {
    var first := l1.TryLock(t);
    if !first {
      return 0;
    }
    var second := l2.TryLock(t);
    if second {
      return -1;
    }
    l1.Unlock(t);
    return 1;
  }

  // Interleaved kernel calls

  datatype Stage =
    | Granted(again: bool)      // the kernel let the thread in; again: it held the mutex already
    | RollingBack               // saw m_locked set
    | Holding                   // lock() or try_lock() has succeeded
    | Clearing                  // unlock() has cleared m_locked, the kernel release is to follow

  datatype State = State(owner: Option<Tid>, level: nat, locked: bool, threads: map<Tid, Stage>)

  datatype Action =
    | Wait(t: Tid)           // the kernel grants osMutexWait, blocking or not
    | TestFlag(t: Tid)
    | Undo(t: Tid)
    | ClearFlag(t: Tid)
    | Release(t: Tid)

  const FREE := State(None, 0, false, map[])

  predicate Enabled(s: State, a: Action) {
    match a
    case Wait(t) => (s.level == 0 && t !in s.threads) || (s.owner == Some(t) && t in s.threads && s.threads[t].Holding?)
    case TestFlag(t) => t in s.threads && s.threads[t].Granted?
    case Undo(t) => t in s.threads && s.threads[t].RollingBack?
    case ClearFlag(t) => t in s.threads && s.threads[t].Holding?
    case Release(t) => t in s.threads && s.threads[t].Clearing?
  }

  function Released(s: State): State {
    if s.level == 1 then s.(level := 0, owner := None)
    else if s.level > 1 then s.(level := s.level - 1)
    else s
  }

  function Step(s: State, a: Action): State
    requires Enabled(s, a)
  {
    match a
    case Wait(t) =>
      s.(owner := Some(t), level := s.level + 1, threads := s.threads[t := Granted(t in s.threads)])
    case TestFlag(t) =>
      if s.locked then
        s.(threads := s.threads[t := RollingBack])
      else s.(locked := true, threads := s.threads[t := Holding])
    case Undo(t) => Released(s).(threads := s.threads[t := Holding])
    case ClearFlag(t) => s.(locked := false, threads := s.threads[t := Clearing])
    case Release(t) => Released(s).(threads := s.threads - {t})
  }

  predicate CanRun(s: State, run: seq<Action>)
    decreases |run|
  {
    run == [] || (Enabled(s, run[0]) && CanRun(Step(s, run[0]), run[1..]))
  }

  function Run(s: State, run: seq<Action>): State
    requires CanRun(s, run)
    decreases |run|
  {
    if run == [] then s else Run(Step(s, run[0]), run[1..])
  }

  /** Level and flag for each stage of the one thread inside. */
  predicate Fits(s: State, stage: Stage) {
    match stage
    case Granted(again) => s.level == (if again then 2 else 1) && (s.locked <==> again)
    case RollingBack => s.level == 2 && s.locked
    case Holding => s.level == 1 && s.locked
    case Clearing => s.level == 1 && !s.locked
  }

  ghost predicate Inv(s: State) {
    && (s.owner == None ==> s.level == 0 && !s.locked && s.threads == map[])
    && (s.owner.Some? ==> s.threads.Keys == {s.owner.value} && Fits(s, s.threads[s.owner.value]))
  }

  /** The kernel lets a thread in if the mutex is free or the thread holds it already; from there its calls go on without waiting. */
  lemma KernelGrants(s: State, t: Tid)
    requires Inv(s)
    ensures Enabled(s, Wait(t)) <==> s.level == 0 || (t in s.threads && s.threads[t].Holding?)
    ensures Enabled(s, Wait(t)) ==> Step(s, Wait(t)).threads == map[t := Granted(s.level > 0)] && Step(s, Wait(t)).owner == Some(t)
    ensures t in s.threads && s.threads[t].Granted? ==> Enabled(s, TestFlag(t))
    ensures t in s.threads && s.threads[t].RollingBack? ==> Enabled(s, Undo(t))
    ensures t in s.threads && s.threads[t].Holding? ==> Enabled(s, ClearFlag(t)) && Step(s, ClearFlag(t)).threads[t].Clearing?
    ensures t in s.threads && s.threads[t].Clearing? ==> Enabled(s, Release(t)) && Step(s, Release(t)) == FREE
  {
  }

  lemma StepKeepsInv(s: State, a: Action)
    requires Inv(s) && Enabled(s, a)
    ensures Inv(Step(s, a))
  {
  }

  lemma {:induction false} RunKeepsInv(s: State, run: seq<Action>)
    requires Inv(s) && CanRun(s, run)
    ensures Inv(Run(s, run))
    decreases |run|
  {
    if run != [] {
      StepKeepsInv(s, run[0]);
      RunKeepsInv(Step(s, run[0]), run[1..]);
    }
  }

  /**
    Flag and kernel level give a correct non-recursive mutex in every interleaving: at most one thread is
    inside, a thread that did not hold the mutex is never refused, and one that did is always refused and
    ends up holding it once.
  */
  lemma NonRecursiveMutex(run: seq<Action>, t: Tid, u: Tid)
    requires CanRun(FREE, run) && t in Run(FREE, run).threads
    ensures var s := Run(FREE, run);
      && (u in s.threads ==> t == u)
      && (s.threads[t].Holding? ==> s.level == 1 && s.locked && s.owner == Some(t))
      && (s.threads[t] == Granted(false) ==> Step(s, TestFlag(t)).threads[t].Holding?)
      && (s.threads[t] == Granted(true) ==> Step(s, TestFlag(t)).threads[t].RollingBack?)
      && (s.threads[t].RollingBack? ==> Step(s, Undo(t)) == State(Some(t), 1, true, map[t := Holding]))
  {
    RunKeepsInv(FREE, run);
  }
}
