/**
The handshake between a thread handle (create, join, detach) and the invokee
(weos_threadInvoker) over the shared thread state, for any number of threads,
together with the global list of shared states. Semaphore operations, reference
count operations, SVC calls and destructor calls are one step each.
*/
module ThreadLifetime {

  type Id = nat

  datatype Handle =
    | Starting(idSet: bool)          // do_create, task running, reference not counted yet
    | Joinable
    | JoinWaiting | JoinDropping     // join(): after post; after wait
    | DetachDropping | DetachWaiting // detach(): after post; the invokee dropped its reference first
    | Unlinking | Destructing        // inside destroy()
    | Finished(destroyed: bool)

  datatype Invokee =
    | Running                        // the threaded function
    | Holding                        // blocked on m_joinedOrDetached
    | Dropping                       // about to decrement the reference count
    | LastUnlinking | LastDestructing | LastTerminating   // the invokee destroys the state
    | Posting                        // about to post m_finished and terminate in one SVC call
    | Terminated(posted: bool)

  /** idStored and destructions are history. */
  datatype Shared = Shared(
    handle: Handle,
    invokee: Invokee,
    finished: nat,
    joinedOrDetached: nat,
    references: int,
    idStored: bool,
    destructions: nat)

  datatype Move =
    | StoreId | CountReference
    | Join | TakeFinished | DropJoined
    | Detach | DropDetached
    | HandleUnlink | HandleDestruct
    | ReturnFromBody | TakeJoined | DropInvokee
    | InvokeeUnlink | InvokeeDestruct | TerminateOnly | PostAndTerminate

  const CREATED := Shared(Starting(false), Running, 0, 0, 1, false, 0)

  predicate CanMove(x: Shared, m: Move) {
    match m
    case StoreId => x.handle == Starting(false)
    case CountReference => x.handle == Starting(true)
    case Join => x.handle.Joinable?
    case TakeFinished => (x.handle.JoinWaiting? || x.handle.DetachWaiting?) && x.finished > 0
    case DropJoined => x.handle.JoinDropping?
    case Detach => x.handle.Joinable?
    case DropDetached => x.handle.DetachDropping?
    case HandleUnlink => x.handle.Unlinking?
    case HandleDestruct => x.handle.Destructing?
    case ReturnFromBody => x.invokee.Running?
    case TakeJoined => x.invokee.Holding? && x.joinedOrDetached > 0
    case DropInvokee => x.invokee.Dropping?
    case InvokeeUnlink => x.invokee.LastUnlinking?
    case InvokeeDestruct => x.invokee.LastDestructing?
    case TerminateOnly => x.invokee.LastTerminating?
    case PostAndTerminate => x.invokee.Posting?
  }

  /** TerminateOnly works with the thread id that was read before; every other move reads or writes the state. */
  predicate TouchesState(m: Move) {
    !m.TerminateOnly?
  }

  function Moved(x: Shared, m: Move): Shared
    requires CanMove(x, m)
  {
    match m
    case StoreId => x.(handle := Starting(true), idStored := true)
    case CountReference => x.(handle := Joinable, references := x.references + 1)
    case Join => x.(handle := JoinWaiting, joinedOrDetached := x.joinedOrDetached + 1)
    case TakeFinished =>
      x.(handle := if x.handle.JoinWaiting? then JoinDropping else Unlinking, finished := x.finished - 1)
    case DropJoined =>
      x.(handle := if x.references - 1 == 0 then Unlinking else Finished(false), references := x.references - 1)
    case Detach => x.(handle := DetachDropping, joinedOrDetached := x.joinedOrDetached + 1)
    case DropDetached =>
      x.(handle := if x.references - 1 == 0 then DetachWaiting else Finished(false), references := x.references - 1)
    case HandleUnlink => x.(handle := Destructing)
    case HandleDestruct => x.(handle := Finished(true), destructions := x.destructions + 1)
    case ReturnFromBody => x.(invokee := Holding)
    case TakeJoined => x.(invokee := Dropping, joinedOrDetached := x.joinedOrDetached - 1)
    case DropInvokee =>
      x.(invokee := if x.references - 1 == 0 then LastUnlinking else Posting, references := x.references - 1)
    case InvokeeUnlink => x.(invokee := LastDestructing)
    case InvokeeDestruct => x.(invokee := LastTerminating, destructions := x.destructions + 1)
    case TerminateOnly => x.(invokee := Terminated(false))
    case PostAndTerminate => x.(invokee := Terminated(true), finished := x.finished + 1)
  }

  predicate HandlePosted(h: Handle) {
    !h.Starting? && !h.Joinable?
  }

  predicate HandleCounted(h: Handle) {
    h.Joinable? || h.JoinWaiting? || h.JoinDropping? || h.DetachDropping?
  }

  predicate InvokeeCounted(i: Invokee) {
    i.Running? || i.Holding? || i.Dropping?
  }

  predicate InvokeeIsLast(i: Invokee) {
    i.LastUnlinking? || i.LastDestructing? || i.LastTerminating? || i == Terminated(false)
  }

  /** destroy() has taken the state off the global list. */
  predicate OffTheList(x: Shared) {
    || x.handle.Destructing? || x.handle == Finished(true)
    || x.invokee.LastDestructing? || x.invokee.LastTerminating? || x.invokee == Terminated(false)
  }

  predicate Destroyed(x: Shared) {
    x.handle == Finished(true) || x.invokee.LastTerminating? || x.invokee == Terminated(false)
  }

  ghost predicate Inv(x: Shared) {
    && x.references == (if HandleCounted(x.handle) then 1 else 0) + (if InvokeeCounted(x.invokee) then 1 else 0)
    && x.joinedOrDetached == (if HandlePosted(x.handle) && (x.invokee.Running? || x.invokee.Holding?) then 1 else 0)
    && x.finished ==
       (if x.invokee == Terminated(true) && (x.handle.JoinWaiting? || x.handle.DetachDropping? || x.handle.DetachWaiting?) then 1 else 0)
    && x.destructions == (if Destroyed(x) then 1 else 0)
    && (x.handle != Starting(false) ==> x.idStored)
    && (!x.invokee.Running? && !x.invokee.Holding? ==> HandlePosted(x.handle))
    && (InvokeeIsLast(x.invokee) ==> x.handle == Finished(false))
    && (x.handle == Finished(false) ==> InvokeeCounted(x.invokee) || InvokeeIsLast(x.invokee))
    && (x.handle.JoinDropping? || x.handle.Unlinking? || x.handle.Destructing? || x.handle == Finished(true)
        ==> x.invokee == Terminated(true))
    && (x.handle.DetachWaiting? ==> x.invokee.Posting? || x.invokee == Terminated(true))
  }

  /** Whoever makes a move that reads or writes the state does so before its destruction, and the invokee finds its thread id in it. */
  lemma NothingIsTouchedLate(x: Shared, m: Move)
    requires Inv(x) && CanMove(x, m)
    ensures TouchesState(m) ==> x.destructions == 0
    ensures m.InvokeeUnlink? || m.PostAndTerminate? ==> x.idStored
    ensures m.HandleDestruct? || m.InvokeeDestruct? ==> Moved(x, m).destructions == 1
  {
    if Destroyed(x) { OnlyTerminationIsLeft(x, m); }
  }

  lemma OnlyTerminationIsLeft(x: Shared, m: Move)
    requires Inv(x) && Destroyed(x) && CanMove(x, m)
    ensures !TouchesState(m)
  {
    assert x.handle.Finished?;
  }

  /** do_create: the handle stores the id and counts its reference before anybody can join or detach. */
  lemma CreationCompletes(x: Shared)
    requires Inv(x)
    ensures x.handle == Starting(false) ==> CanMove(x, StoreId) && CanMove(Moved(x, StoreId), CountReference)
    ensures x.handle == Starting(true) ==>
      && CanMove(x, CountReference)
      && var y := Moved(x, CountReference);
      y.references == x.references + 1 && CanMove(y, Join) && CanMove(y, Detach)
    ensures x.invokee.Running? ==> CanMove(x, ReturnFromBody) && Moved(x, ReturnFromBody).invokee.Holding?
    ensures x.invokee.Holding? ==> (CanMove(x, TakeJoined) <==> HandlePosted(x.handle))
  {
  }

  predicate CreatingMove(m: Move) {
    m.StoreId? || m.CountReference? || m.Join? || m.Detach? || m.ReturnFromBody? || m.TakeJoined?
  }

  predicate DroppingMove(m: Move) {
    m.TakeFinished? || m.DropJoined? || m.DropDetached? || m.DropInvokee?
  }

  lemma CreatingKeepsInv(x: Shared, m: Move)
    requires Inv(x) && CanMove(x, m) && CreatingMove(m)
    ensures Inv(Moved(x, m))
  {
  }

  lemma DroppingKeepsInv(x: Shared, m: Move)
    requires Inv(x) && CanMove(x, m) && DroppingMove(m)
    ensures Inv(Moved(x, m))
  {
  }

  lemma DestroyingKeepsInv(x: Shared, m: Move)
    requires Inv(x) && CanMove(x, m) && !CreatingMove(m) && !DroppingMove(m)
    ensures Inv(Moved(x, m))
  {
  }

  lemma MoveKeepsInv(x: Shared, m: Move)
    requires Inv(x) && CanMove(x, m)
    ensures Inv(Moved(x, m))
  {
    if CreatingMove(m) {
      CreatingKeepsInv(x, m);
    } else if DroppingMove(m) {
      DroppingKeepsInv(x, m);
    } else {
      DestroyingKeepsInv(x, m);
    }
  }

  function HandleRank(h: Handle): nat {
    match h
    case Starting(idSet) => if idSet then 8 else 9
    case Joinable => 7
    case JoinWaiting => 5
    case JoinDropping => 4
    case DetachDropping => 6
    case DetachWaiting => 3
    case Unlinking => 2
    case Destructing => 1
    case Finished(_) => 0
  }

  function InvokeeRank(i: Invokee): nat {
    match i
    case Running => 6
    case Holding => 5
    case Dropping => 4
    case LastUnlinking => 3
    case LastDestructing => 2
    case LastTerminating => 1
    case Posting => 1
    case Terminated(_) => 0
  }

  function Rank(x: Shared): nat {
    HandleRank(x.handle) + InvokeeRank(x.invokee)
  }

  predicate BothDone(x: Shared) {
    x.handle.Finished? && x.invokee.Terminated?
  }

  lemma MoveLowersRank(x: Shared, m: Move)
    requires CanMove(x, m)
    ensures Rank(Moved(x, m)) < Rank(x)
  {
  }

  /** After the body and after join or detach a move exists until both sides are done, and then the state is gone. */
  lemma HandshakeProgress(x: Shared)
    requires Inv(x) && HandlePosted(x.handle) && !x.invokee.Running?
    ensures if BothDone(x) then x.destructions == 1 && x.references == 0 else exists m :: CanMove(x, m)
  {
    match x.invokee
    case Holding => assert CanMove(x, TakeJoined);
    case Dropping => assert CanMove(x, DropInvokee);
    case LastUnlinking => assert CanMove(x, InvokeeUnlink);
    case LastDestructing => assert CanMove(x, InvokeeDestruct);
    case LastTerminating => assert CanMove(x, TerminateOnly);
    case Posting => assert CanMove(x, PostAndTerminate);
    case Terminated(posted) => HandleProgress(x);
  }

  lemma HandleProgress(x: Shared)
    requires Inv(x) && HandlePosted(x.handle) && x.invokee.Terminated?
    ensures if BothDone(x) then x.destructions == 1 && x.references == 0 else exists m :: CanMove(x, m)
  {
    match x.handle
    case JoinWaiting => assert CanMove(x, TakeFinished);
    case JoinDropping => assert CanMove(x, DropJoined);
    case DetachDropping => assert CanMove(x, DropDetached);
    case DetachWaiting => assert CanMove(x, TakeFinished);
    case Unlinking => assert CanMove(x, HandleUnlink);
    case Destructing => assert CanMove(x, HandleDestruct);
    case Finished(_) =>
  }

  predicate CanMoves(x: Shared, ms: seq<Move>)
    decreases |ms|
  {
    ms == [] || (CanMove(x, ms[0]) && CanMoves(Moved(x, ms[0]), ms[1..]))
  }

  function Moves(x: Shared, ms: seq<Move>): Shared
    requires CanMoves(x, ms)
    decreases |ms|
  {
    if ms == [] then x else Moves(Moved(x, ms[0]), ms[1..])
  }

  ghost predicate Stuck(x: Shared) {
    forall m :: !CanMove(x, m)
  }

  lemma StuckMeansDone(x: Shared)
    requires Inv(x) && HandlePosted(x.handle) && !x.invokee.Running?
    ensures Stuck(x) <==> BothDone(x)
    ensures Stuck(x) ==> x.destructions == 1 && x.references == 0
  {
    HandshakeProgress(x);
  }

  lemma {:induction false} MovesLowerRank(x: Shared, ms: seq<Move>)
    requires Inv(x) && HandlePosted(x.handle) && !x.invokee.Running? && CanMoves(x, ms)
    ensures var y := Moves(x, ms);
      Inv(y) && HandlePosted(y.handle) && !y.invokee.Running? && |ms| + Rank(y) <= Rank(x)
    decreases |ms|
  {
    if ms != [] {
      var y := Moved(x, ms[0]);
      MoveKeepsInv(x, ms[0]);
      MoveLowersRank(x, ms[0]);
      StaysPosted(x, ms[0]);
      MovesLowerRank(y, ms[1..]);
      assert Moves(x, ms) == Moves(y, ms[1..]);
    }
  }

  /**
    Once the body is done and join or detach has posted, no schedule can run for longer than Rank(x) moves
    or stop early: when no move is left, both sides are done and the state has been destroyed, once.
  */
  lemma EveryScheduleCompletes(x: Shared, ms: seq<Move>)
    requires Inv(x) && HandlePosted(x.handle) && !x.invokee.Running? && CanMoves(x, ms)
    ensures |ms| <= Rank(x)
    ensures Stuck(Moves(x, ms)) <==> BothDone(Moves(x, ms))
    ensures Stuck(Moves(x, ms)) ==> Moves(x, ms).destructions == 1 && Moves(x, ms).references == 0
  {
    MovesLowerRank(x, ms);
    StuckMeansDone(Moves(x, ms));
  }

  /** Such a schedule exists. */
  lemma {:induction false} HandshakeCompletes(x: Shared) returns (ms: seq<Move>)
    requires Inv(x) && HandlePosted(x.handle) && !x.invokee.Running?
    ensures CanMoves(x, ms) && BothDone(Moves(x, ms)) && Moves(x, ms).destructions == 1
    ensures |ms| <= Rank(x)
    decreases Rank(x)
  {
    HandshakeProgress(x);
    if BothDone(x) {
      ms := [];
    } else {
      var m :| CanMove(x, m);
      MoveKeepsInv(x, m);
      MoveLowersRank(x, m);
      StaysPosted(x, m);
      var rest := HandshakeCompletes(Moved(x, m));
      ms := [m] + rest;
      assert ms[1..] == rest;
    }
  }

  lemma StaysPosted(x: Shared, m: Move)
    requires CanMove(x, m) && HandlePosted(x.handle) && !x.invokee.Running?
    ensures HandlePosted(Moved(x, m).handle) && !Moved(x, m).invokee.Running?
  {
  }

  // What a call of join or detach comes to

  predicate InJoin(x: Shared) {
    x.handle.JoinWaiting? || x.handle.JoinDropping?
    || ((x.handle.Unlinking? || x.handle.Destructing? || x.handle == Finished(true)) && x.invokee == Terminated(true))
  }

  predicate InDetach(x: Shared) {
    x.handle.DetachDropping? || x.handle.DetachWaiting?
    || x.handle.Unlinking? || x.handle.Destructing? || x.handle.Finished?
  }

  lemma StaysInJoin(x: Shared, m: Move)
    requires Inv(x) && CanMove(x, m) && InJoin(x)
    ensures InJoin(Moved(x, m))
  {
  }

  lemma StaysInDetach(x: Shared, m: Move)
    requires CanMove(x, m) && InDetach(x)
    ensures InDetach(Moved(x, m))
  {
  }

  lemma {:induction false} CallGoesOn(x: Shared, ms: seq<Move>)
    requires Inv(x) && CanMoves(x, ms)
    ensures Inv(Moves(x, ms))
    ensures InJoin(x) ==> InJoin(Moves(x, ms))
    ensures InDetach(x) ==> InDetach(Moves(x, ms))
    decreases |ms|
  {
    if ms != [] {
      MoveKeepsInv(x, ms[0]);
      if InJoin(x) { StaysInJoin(x, ms[0]); }
      if InDetach(x) { StaysInDetach(x, ms[0]); }
      CallGoesOn(Moved(x, ms[0]), ms[1..]);
    }
  }

  /**
    join waits for the thread: when the call has returned, the thread has terminated, and the state has been
    destroyed by this call. Until then it is blocked exactly while the thread has not terminated.
  */
  lemma JoinReturnsAfterTermination(x: Shared, ms: seq<Move>)
    requires Inv(x) && CanMove(x, Join) && CanMoves(Moved(x, Join), ms)
    ensures var y := Moves(Moved(x, Join), ms);
      && (y.handle.Finished? ==> y.handle == Finished(true) && y.invokee == Terminated(true) && y.destructions == 1)
      && (y.handle.JoinWaiting? ==> (CanMove(y, TakeFinished) <==> y.invokee.Terminated?))
      && (!y.handle.JoinWaiting? ==> y.invokee == Terminated(true))
  {
    MoveKeepsInv(x, Join);
    CallGoesOn(Moved(x, Join), ms);
  }

  /**
    detach does not wait for the thread: while the invokee holds its reference, the call can return at once and
    leaves the state to it. Only if the invokee has dropped its reference does the call wait, for the last
    access of the invokee, and destroy the state itself.
  */
  lemma DetachLeavesTheStateToTheLast(x: Shared, ms: seq<Move>)
    requires Inv(x) && CanMove(x, Detach) && CanMoves(Moved(x, Detach), ms)
    ensures var y := Moves(Moved(x, Detach), ms);
      && (y.handle.DetachDropping? ==> CanMove(y, DropDetached))
      && (y.handle.DetachDropping? ==>
            Moved(y, DropDetached).handle == if InvokeeCounted(y.invokee) then Finished(false) else DetachWaiting)
      && (y.handle.DetachWaiting? ==> (CanMove(y, TakeFinished) <==> y.invokee.Terminated?))
      && (y.handle == Finished(true) ==> y.invokee == Terminated(true) && y.destructions == 1)
      && (y.handle == Finished(false) ==> InvokeeCounted(y.invokee) || InvokeeIsLast(y.invokee))
      && InDetach(y)
  {
    MoveKeepsInv(x, Detach);
    CallGoesOn(Moved(x, Detach), ms);
  }

  // The system: all threads and the list g_sharedThreadStates

  datatype System = System(list: seq<Id>, threads: map<Id, Shared>)

  datatype Action = Create(id: Id) | Act(id: Id, move: Move)

  const EMPTY := System([], map[])

  /** weos_unlinkSharedState as a function: the first occurrence goes, an unlisted state changes nothing. */
  function Delisted<T(==)>(list: seq<T>, id: T): (r: seq<T>) {
    if list == [] then [] else if list[0] == id then list[1..] else [list[0]] + Delisted(list[1..], id)
  }

  ghost predicate NoDuplicates<T>(list: seq<T>) {
    forall i, j :: 0 <= i < j < |list| ==> list[i] != list[j]
  }

  lemma {:induction false} DelistedMembers<T>(list: seq<T>, id: T)
    requires NoDuplicates(list)
    ensures NoDuplicates(Delisted(list, id))
    ensures forall x :: x in Delisted(list, id) <==> x in list && x != id
  {
    if list != [] && list[0] != id {
      DelistedMembers(list[1..], id);
      var r := Delisted(list[1..], id);
      assert forall x :: x in list <==> x == list[0] || x in list[1..];
      assert list[0] !in list[1..];
      assert forall i :: 0 <= i < |r| ==> r[i] in r;
    }
  }

  predicate Enabled(s: System, a: Action) {
    match a
    case Create(id) => id !in s.threads
    case Act(id, m) => id in s.threads && CanMove(s.threads[id], m)
  }

  function Step(s: System, a: Action): System
    requires Enabled(s, a)
  {
    match a
    case Create(id) => System([id] + s.list, s.threads[id := CREATED])
    case Act(id, m) =>
      System(if m.HandleUnlink? || m.InvokeeUnlink? then Delisted(s.list, id) else s.list,
             s.threads[id := Moved(s.threads[id], m)])
  }

  predicate CanRun(s: System, run: seq<Action>)
    decreases |run|
  {
    run == [] || (Enabled(s, run[0]) && CanRun(Step(s, run[0]), run[1..]))
  }

  function Run(s: System, run: seq<Action>): System
    requires CanRun(s, run)
    decreases |run|
  {
    if run == [] then s else Run(Step(s, run[0]), run[1..])
  }

  /** The list holds exactly the states that exist and whose destruction has not begun, each once. */
  ghost predicate Listed(s: System) {
    && NoDuplicates(s.list)
    && (forall id: Id :: id in s.list <==> id in s.threads && !OffTheList(s.threads[id]))
  }

  ghost predicate AllInv(threads: map<Id, Shared>) {
    forall id :: id in threads ==> Inv(threads[id])
  }

  ghost predicate SystemInv(s: System) {
    AllInv(s.threads) && Listed(s)
  }

  lemma StepKeepsInv(s: System, a: Action)
    requires SystemInv(s) && Enabled(s, a)
    ensures SystemInv(Step(s, a))
  {
    match a
    case Create(id) =>
    case Act(id, m) => ActKeepsInv(s, id, m);
  }

  lemma ActKeepsInv(s: System, id: Id, m: Move)
    requires SystemInv(s) && Enabled(s, Act(id, m))
    ensures SystemInv(Step(s, Act(id, m)))
  {
    assert Inv(s.threads[id]);
    var x := Moved(s.threads[id], m);
    MoveKeepsInv(s.threads[id], m);
    ReplacingKeepsAllInv(s.threads, id, x);
    ListChange(s.threads[id], m);
    ReplacingKeepsListed(s, id, x, m.HandleUnlink? || m.InvokeeUnlink?);
  }

  lemma ReplacingKeepsAllInv(threads: map<Id, Shared>, id: Id, x: Shared)
    requires AllInv(threads) && Inv(x)
    ensures AllInv(threads[id := x])
  {
    var updated := threads[id := x];
    forall i | i in updated ensures Inv(updated[i]) {
      assert i != id ==> Inv(threads[i]);
    }
  }

  lemma ReplacingKeepsListed(s: System, id: Id, x: Shared, unlink: bool)
    requires Listed(s) && id in s.threads
    requires OffTheList(x) <==> OffTheList(s.threads[id]) || unlink
    ensures Listed(System(if unlink then Delisted(s.list, id) else s.list, s.threads[id := x]))
  {
    var s' := System(if unlink then Delisted(s.list, id) else s.list, s.threads[id := x]);
    DelistedMembers(s.list, id);
    forall i: Id ensures i in s'.list <==> i in s'.threads && !OffTheList(s'.threads[i]) {
      if i != id { assert i in s.list <==> i in s'.list; }
    }
  }

  /** Only the two unlink moves take a state off the list. */
  lemma ListChange(x: Shared, m: Move)
    requires Inv(x) && CanMove(x, m)
    ensures OffTheList(Moved(x, m)) <==> OffTheList(x) || m.HandleUnlink? || m.InvokeeUnlink?
  {
    if CreatingMove(m) {
      CreatingKeepsListing(x, m);
    } else if DroppingMove(m) {
      DroppingKeepsListing(x, m);
    }
  }

  lemma CreatingKeepsListing(x: Shared, m: Move)
    requires CanMove(x, m) && CreatingMove(m)
    ensures OffTheList(Moved(x, m)) <==> OffTheList(x)
  {
  }

  lemma DroppingKeepsListing(x: Shared, m: Move)
    requires CanMove(x, m) && DroppingMove(m)
    ensures OffTheList(Moved(x, m)) <==> OffTheList(x)
  {
  }

  lemma {:induction false} RunKeepsInv(s: System, run: seq<Action>)
    requires SystemInv(s) && CanRun(s, run)
    ensures SystemInv(Run(s, run))
    decreases |run|
  {
    if run != [] {
      StepKeepsInv(s, run[0]);
      RunKeepsInv(Step(s, run[0]), run[1..]);
    }
  }

  /**
    Lifetime safety in every interleaving: a shared state is destroyed at most once and never touched
    afterwards; the handle destroys it, or returns from join, only after the thread has terminated;
    and the list is exact.
  */
  lemma LifetimeIsSafe(run: seq<Action>, id: Id)
    requires CanRun(EMPTY, run) && id in Run(EMPTY, run).threads
    ensures var s := Run(EMPTY, run); var x := s.threads[id];
      && x.destructions <= 1
      && (forall m :: CanMove(x, m) && TouchesState(m) ==> x.destructions == 0)
      && (x.handle.JoinDropping? || x.handle.Unlinking? || x.handle.Destructing? || x.handle == Finished(true)
          ==> x.invokee.Terminated?)
      && (BothDone(x) ==> x.destructions == 1)
      && (x.invokee.Dropping? || x.invokee.LastUnlinking? || x.invokee.Posting? ==> !x.handle.Starting?)
      && Listed(s)
  {
    RunKeepsInv(EMPTY, run);
    var x := Run(EMPTY, run).threads[id];
    assert Inv(x);
    forall m | CanMove(x, m) && TouchesState(m) ensures x.destructions == 0 { NothingIsTouchedLate(x, m); }
  }
}
