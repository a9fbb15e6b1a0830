/**
The shared state behind one promise and its future: flags changed by
compare-and-exchange loops, a reference count, and the one-shot condition variable
made from a semaphore. Setters, get_future calls and waiting threads interleave, one
access to the shared state per step. Destroying a handle while another thread uses
that same handle is outside the contract of the library.
*/
module FutureState {
  import opened Wrappers

  type Op = nat

  datatype Flags = Flags(attached: bool, satisfied: bool, constructed: bool, ready: bool)

  datatype Payload = Value(v: int) | Exception(e: int)

  const BROKEN_PROMISE: Payload := Exception(1)

  /** A call of startSettingValue with the flags it has seen. */
  datatype Attempt = Attempt(seen: Flags, payload: Payload)

  /** A call of set_value or set_exception, or the destructor of the promise. */
  datatype Setter = Call(op: Op) | Destructor

  /** The one setter that got through startSettingValue, and what it sets. */
  datatype Winner =
    | Nobody
    | Storing(setter: Setter, payload: Payload)
    | Flagging(setter: Setter, payload: Payload)
    | Notifying(setter: Setter, payload: Payload)
    | Done(setter: Setter, payload: Payload)

  datatype PromiseHandle = Alive | Breaking | PromiseDropping | PromiseDestroying | PromiseGone

  datatype FutureHandle = NeverRetrieved | Counting | Held | FutureDestroying | FutureGone

  /**
    The handles and the reference count. The last three fields are history: the get_future calls that have
    thrown, the number of those that have not, and the destructions.
  */
  datatype Life = Life(
    references: int,
    promise: PromiseHandle,
    future: FutureHandle,
    retrieving: map<Op, Flags>,
    denied: set<Op>,
    retrievals: nat,
    destructions: nat)

  /** The result and its setters. given, refused and stores are history: what each setter was called with, which ones have thrown. */
  datatype Outcome = Outcome(
    flags: Flags,
    value: Option<int>,
    exception: Option<int>,
    winner: Winner,
    setting: map<Op, Attempt>,
    given: map<Op, Payload>,
    refused: set<Op>,
    stores: nat)

  /** The one-shot condition variable and its waiters. served is history: the waiters that went away with a result. */
  datatype Waiters = Waiters(
    tokens: nat,
    testing: set<Op>,      // about to test Ready
    blocked: set<Op>,      // inside semaphore::wait
    reposting: set<Op>,    // between wait and post
    served: set<Op>)

  datatype State = State(life: Life, result: Outcome, cv: Waiters)

  datatype Action =
    | StartSetting(op: Op, payload: Payload)
    | TrySetting(op: Op)
    | StorePayload
    | SetReady
    | Notify
    | StartRetrieving(op: Op)
    | TryRetrieving(op: Op)
    | CountFuture
    | StartWaiting(op: Op)
    | TestReady(op: Op)
    | TakeToken(op: Op)
    | TimeOut(op: Op)
    | Repost(op: Op)
    | DropFuture
    | BeginPromiseDestructor
    | EndBreaking
    | DropPromise
    | DestroyByPromise
    | DestroyByFuture

  const NO_FLAGS := Flags(false, false, false, false)

  const CREATED := State(
    Life(1, Alive, NeverRetrieved, map[], {}, 0, 0),
    Outcome(NO_FLAGS, None, None, Nobody, map[], map[], {}, 0),
    Waiters(0, {}, {}, {}, {}))

  predicate Enabled(s: State, a: Action) {
    match a
    case StartSetting(op, _) => s.life.promise.Alive? && op !in s.result.given
    case TrySetting(op) => op in s.result.setting
    case StorePayload => s.result.winner.Storing?
    case SetReady => s.result.winner.Flagging?
    case Notify => s.result.winner.Notifying?
    case StartRetrieving(op) => s.life.promise.Alive? && op !in s.life.retrieving
    case TryRetrieving(op) => op in s.life.retrieving
    case CountFuture => s.life.future.Counting?
    case StartWaiting(op) => s.life.future.Held? && op !in Waiting(s.cv)
    case TestReady(op) => op in s.cv.testing
    case TakeToken(op) => op in s.cv.blocked && s.cv.tokens > 0
    case TimeOut(op) => op in s.cv.blocked && s.cv.tokens == 0
    case Repost(op) => op in s.cv.reposting
    case DropFuture => s.life.future.Held? && Waiting(s.cv) == {}
    case BeginPromiseDestructor =>
      s.life.promise.Alive? && s.result.setting == map[] && s.life.retrieving == map[] && !s.life.future.Counting?
      && (s.result.winner.Nobody? || s.result.winner.Done?)
    case EndBreaking => s.life.promise.Breaking? && s.result.winner.Done?
    case DropPromise => s.life.promise.PromiseDropping?
    case DestroyByPromise => s.life.promise.PromiseDestroying?
    case DestroyByFuture => s.life.future.FutureDestroying?
  }

  function Waiting(c: Waiters): set<Op> {
    c.testing + c.blocked + c.reposting
  }

  /** One round of the loop in startSettingValue: throws, succeeds, or retries with the flags just seen. */
  function TrySettingStep(r: Outcome, op: Op): Outcome
    requires op in r.setting
  {
    var t := r.setting[op];
    if t.seen.satisfied then r.(setting := r.setting - {op}, refused := r.refused + {op})
    else if r.flags == t.seen then
      r.(flags := r.flags.(satisfied := true), winner := Storing(Call(op), t.payload), setting := r.setting - {op})
    else r.(setting := r.setting[op := t.(seen := r.flags)])
  }

  /** One round of the loop in attachFuture. */
  function TryRetrievingStep(s: State, op: Op): State
    requires op in s.life.retrieving
  {
    var h, seen := s.life, s.life.retrieving[op];
    if seen.attached then s.(life := h.(retrieving := h.retrieving - {op}, denied := h.denied + {op}))
    else if s.result.flags == seen then
      s.(life := h.(future := Counting, retrievals := h.retrievals + 1, retrieving := h.retrieving - {op}),
         result := s.result.(flags := s.result.flags.(attached := true)))
    else s.(life := h.(retrieving := h.retrieving[op := s.result.flags]))
  }

  function StorePayloadStep(r: Outcome): Outcome
    requires r.winner.Storing?
  {
    var t := r.(winner := Flagging(r.winner.setter, r.winner.payload), stores := r.stores + 1);
    match r.winner.payload
    case Value(v) => t.(value := Some(v))
    case Exception(e) => t.(exception := Some(e))
  }

  function SetReadyStep(r: Outcome): Outcome
    requires r.winner.Flagging?
  {
    r.(flags := r.flags.(ready := true, constructed := r.flags.constructed || r.winner.payload.Value?),
       winner := Notifying(r.winner.setter, r.winner.payload))
  }

  /** The actions that touch the result, and what they do to it. */
  function ActOnResult(s: State, a: Action): Outcome
    requires Enabled(s, a)
  {
    var r := s.result;
    match a
    case StartSetting(op, payload) => r.(setting := r.setting[op := Attempt(r.flags, payload)], given := r.given[op := payload])
    case TrySetting(op) => TrySettingStep(r, op)
    case StorePayload => StorePayloadStep(r)
    case SetReady => SetReadyStep(r)
    case Notify => r.(winner := Done(r.winner.setter, r.winner.payload))
    case TryRetrieving(op) => TryRetrievingStep(s, op).result
    case BeginPromiseDestructor =>
      if !r.flags.ready && s.life.references > 1 then
        r.(flags := r.flags.(satisfied := true), winner := Storing(Destructor, BROKEN_PROMISE))
      else r
    case _ => r
  }

  function ActOnLife(s: State, a: Action): Life
    requires Enabled(s, a)
  {
    var h := s.life;
    match a
    case StartRetrieving(op) => h.(retrieving := h.retrieving[op := s.result.flags])
    case TryRetrieving(op) => TryRetrievingStep(s, op).life
    case CountFuture => h.(references := h.references + 1, future := Held)
    case DropFuture =>
      h.(references := h.references - 1, future := if h.references == 1 then FutureDestroying else FutureGone)
    case BeginPromiseDestructor =>
      h.(promise := if !s.result.flags.ready && h.references > 1 then Breaking else PromiseDropping)
    case EndBreaking => h.(promise := PromiseDropping)
    case DropPromise =>
      h.(references := h.references - 1, promise := if h.references == 1 then PromiseDestroying else PromiseGone)
    case DestroyByPromise => h.(destructions := h.destructions + 1, promise := PromiseGone)
    case DestroyByFuture => h.(destructions := h.destructions + 1, future := FutureGone)
    case _ => h
  }

  function ActOnWaiters(s: State, a: Action): Waiters
    requires Enabled(s, a)
  {
    var c := s.cv;
    match a
    case Notify => c.(tokens := c.tokens + 1)
    case StartWaiting(op) => c.(testing := c.testing + {op})
    case TestReady(op) =>
      if s.result.flags.ready then c.(testing := c.testing - {op}, served := c.served + {op})
      else c.(testing := c.testing - {op}, blocked := c.blocked + {op})
    case TakeToken(op) => c.(tokens := c.tokens - 1, blocked := c.blocked - {op}, reposting := c.reposting + {op})
    case TimeOut(op) => c.(blocked := c.blocked - {op})
    case Repost(op) => c.(tokens := c.tokens + 1, testing := c.testing + {op}, reposting := c.reposting - {op})
    case _ => c
  }

  /** Every action but EndBreaking accesses the shared state. */
  predicate TouchesState(a: Action) {
    !a.EndBreaking?
  }

  function Step(s: State, a: Action): State
    requires Enabled(s, a)
  {
    State(ActOnLife(s, a), ActOnResult(s, a), ActOnWaiters(s, a))
  }

  predicate CanRun(s: State, run: seq<Action>)
    decreases |run|
  {
    run == [] || (Enabled(s, run[0]) && CanRun(Step(s, run[0]), run[1..]))
  }

  function Run(s: State, run: seq<Action>): State
    requires CanRun(s, run)
    decreases |run|
  {
    if run == [] then s else Run(Step(s, run[0]), run[1..])
  }

  predicate PromiseCounted(h: Life) {
    h.promise.Alive? || h.promise.Breaking? || h.promise.PromiseDropping?
  }

  /** The number of handles that hold a reference. */
  function LiveHandles(h: Life): nat {
    (if PromiseCounted(h) then 1 else 0) + (if h.future.Held? then 1 else 0)
  }

  /** The references are the live handles, and the last one to go destroys the state. */
  predicate LifeInv(h: Life) {
    && h.references == LiveHandles(h)
    && h.retrievals == (if h.future.NeverRetrieved? then 0 else 1)
    && (h.retrieving != map[] || h.future.Counting? ==> h.promise.Alive?)
    && (h.promise.PromiseDestroying? ==> h.references == 0 && h.destructions == 0 && !h.future.FutureDestroying?)
    && (h.future.FutureDestroying? ==> h.references == 0 && h.destructions == 0)
    && h.destructions == (if h.references == 0 && !h.promise.PromiseDestroying? && !h.future.FutureDestroying? then 1 else 0)
  }

  predicate InFlight(w: Winner) {
    w.Storing? || w.Flagging? || w.Notifying?
  }

  /** The users of the state have a handle; a future that has outlived its promise is ready. */
  predicate HandlesInv(s: State) {
    && LifeInv(s.life)
    && (s.result.flags.attached <==> !s.life.future.NeverRetrieved?)
    && (s.life.denied != {} ==> s.result.flags.attached)
    && (forall op :: op in s.life.retrieving && s.life.retrieving[op].attached ==> s.result.flags.attached)
    && (s.result.setting != map[] ==> s.life.promise.Alive?)
    && (Waiting(s.cv) != {} ==> s.life.future.Held?)
    && (InFlight(s.result.winner) ==> s.life.promise.Alive? || s.life.promise.Breaking?)
    && (s.life.promise.Breaking? ==> !s.result.winner.Nobody?)
    && (s.life.future.Held? && !s.life.promise.Alive? && !s.life.promise.Breaking? ==> s.result.flags.ready)
  }

  predicate HoldsResult(r: Outcome, p: Payload) {
    match p
    case Value(v) => r.value == Some(v) && r.exception == None
    case Exception(e) => r.value == None && r.exception == Some(e)
  }

  /** The flags tell how far the one successful setter is, and what is stored is nothing or exactly what it was given. */
  predicate OutcomeInv(r: Outcome) {
    && (r.flags.satisfied <==> !r.winner.Nobody?)
    && (r.flags.ready <==> r.winner.Notifying? || r.winner.Done?)
    && (r.flags.constructed <==> r.flags.ready && r.winner.payload.Value?)
    && (if r.winner.Nobody? || r.winner.Storing? then r.stores == 0 && r.value == None && r.exception == None
        else r.stores == 1 && HoldsResult(r, r.winner.payload))
    && (!r.winner.Nobody? && r.winner.setter.Destructor? ==> r.winner.payload == BROKEN_PROMISE)
  }

  /** What get() gives to its caller: it rethrows the exception, if there is one, or else moves the value out. */
  function Obtained(r: Outcome): Payload
    requires r.value.Some? || r.exception.Some?
  {
    if r.exception.Some? then Exception(r.exception.value) else Value(r.value.value)
  }

  predicate IsWinner(r: Outcome, op: Op) {
    !r.winner.Nobody? && r.winner.setter == Call(op)
  }

  /** A setter is still trying, has been refused, or is the successful one, and works with what it was given. */
  predicate SetterInv(r: Outcome, op: Op) {
    && (op in r.given <==> op in r.setting || op in r.refused || IsWinner(r, op))
    && (op in r.setting ==> op !in r.refused && r.setting[op].payload == r.given[op])
    && (op in r.setting && r.setting[op].seen.satisfied ==> !r.winner.Nobody?)
    && (op in r.refused ==> !r.winner.Nobody?)
    && (IsWinner(r, op) ==> op !in r.setting && op !in r.refused && r.winner.payload == r.given[op])
  }

  predicate TokensInv(c: Waiters, notified: bool) {
    && c.testing !! c.blocked && c.testing !! c.reposting && c.blocked !! c.reposting
    && c.tokens + |c.reposting| == (if notified then 1 else 0)
  }

  ghost predicate Inv(s: State) {
    && HandlesInv(s) && OutcomeInv(s.result) && TokensInv(s.cv, s.result.winner.Done?)
    && (s.cv.served != {} ==> s.result.flags.ready)
    && (forall op: Op :: SetterInv(s.result, op))
  }

  // The actions in groups

  /** The actions that set a result. */
  predicate SetterAction(a: Action) {
    a.StartSetting? || a.TrySetting? || a.StorePayload? || a.SetReady? || a.Notify?
  }

  /** The actions that attach a future. */
  predicate RetrievalAction(a: Action) {
    a.StartRetrieving? || a.TryRetrieving? || a.CountFuture?
  }

  predicate WaiterAction(a: Action) {
    a.StartWaiting? || a.TestReady? || a.TakeToken? || a.TimeOut? || a.Repost?
  }

  lemma SettingKeepsHandles(s: State, a: Action)
    requires HandlesInv(s) && OutcomeInv(s.result) && Enabled(s, a) && SetterAction(a)
    ensures HandlesInv(Step(s, a))
  {
  }

  lemma RetrievingKeepsHandles(s: State, a: Action)
    requires HandlesInv(s) && OutcomeInv(s.result) && Enabled(s, a) && RetrievalAction(a)
    ensures HandlesInv(Step(s, a))
  {
  }

  lemma WaitingKeepsHandles(s: State, a: Action)
    requires HandlesInv(s) && OutcomeInv(s.result) && Enabled(s, a) && WaiterAction(a)
    ensures HandlesInv(Step(s, a))
  {
  }

  lemma EndingKeepsHandles(s: State, a: Action)
    requires HandlesInv(s) && OutcomeInv(s.result) && Enabled(s, a)
    requires !SetterAction(a) && !RetrievalAction(a) && !WaiterAction(a)
    ensures HandlesInv(Step(s, a))
  {
  }

  lemma StepKeepsHandles(s: State, a: Action)
    requires HandlesInv(s) && OutcomeInv(s.result) && Enabled(s, a)
    ensures HandlesInv(Step(s, a))
  {
    if SetterAction(a) {
      SettingKeepsHandles(s, a);
    } else if RetrievalAction(a) {
      RetrievingKeepsHandles(s, a);
    } else if WaiterAction(a) {
      WaitingKeepsHandles(s, a);
    } else {
      EndingKeepsHandles(s, a);
    }
  }

  lemma StepKeepsOutcome(s: State, a: Action)
    requires OutcomeInv(s.result) && Enabled(s, a)
    ensures OutcomeInv(Step(s, a).result)
  {
  }

  lemma StepKeepsSetter(s: State, a: Action, op: Op)
    requires OutcomeInv(s.result) && SetterInv(s.result, op) && Enabled(s, a)
    ensures SetterInv(Step(s, a).result, op)
  {
  }

  lemma StepKeepsTokens(s: State, a: Action)
    requires OutcomeInv(s.result) && TokensInv(s.cv, s.result.winner.Done?) && Enabled(s, a)
    ensures TokensInv(Step(s, a).cv, Step(s, a).result.winner.Done?)
  {
    assert a.TakeToken? ==> |s.cv.reposting + {a.op}| == |s.cv.reposting| + 1;
    assert a.Repost? ==> |s.cv.reposting - {a.op}| == |s.cv.reposting| - 1;
  }

  lemma ServedOnlyWhenReady(s: State, a: Action)
    requires OutcomeInv(s.result) && Enabled(s, a) && (s.cv.served != {} ==> s.result.flags.ready)
    ensures Step(s, a).cv.served != {} ==> Step(s, a).result.flags.ready
  {
  }

  lemma StepKeepsInv(s: State, a: Action)
    requires Inv(s) && Enabled(s, a)
    ensures Inv(Step(s, a))
  {
    StepKeepsHandles(s, a);
    StepKeepsOutcome(s, a);
    StepKeepsTokens(s, a);
    ServedOnlyWhenReady(s, a);
    forall op: Op ensures SetterInv(Step(s, a).result, op) {
      assert SetterInv(s.result, op);
      StepKeepsSetter(s, a, op);
    }
  }

  lemma {:induction false} RunKeepsInv(s: State, run: seq<Action>)
    requires Inv(s) && CanRun(s, run)
    ensures Inv(Run(s, run))
    decreases |run|
  {
    if run != [] {
      StepKeepsInv(s, run[0]);
      RunKeepsInv(Step(s, run[0]), run[1..]);
    }
  }

  lemma NothingIsTouchedLate(s: State, a: Action)
    requires Inv(s) && Enabled(s, a) && TouchesState(a)
    ensures s.life.destructions == 0
  {
  }

  /**
    For every interleaving: the reference count is the number of live handles; at most one future is
    retrieved; a result is stored at most once; a future that outlives its promise is ready; the state is
    destroyed once both handles are gone, once, and never touched afterwards.
  */
  lemma SharedStateIsSafe(run: seq<Action>)
    requires CanRun(CREATED, run)
    ensures var s := Run(CREATED, run); var h := s.life;
      && h.references == LiveHandles(h)
      && h.retrievals <= 1 && s.result.stores <= 1
      && (s.result.flags.constructed <==> s.result.flags.ready && s.result.value.Some?)
      && (h.future.Held? && (h.promise.PromiseDropping? || h.promise.PromiseDestroying? || h.promise.PromiseGone?) ==> s.result.flags.ready)
      && h.destructions <= 1
      && (forall a :: Enabled(s, a) && TouchesState(a) ==> h.destructions == 0)
      && (h.promise.PromiseGone? && (h.future.NeverRetrieved? || h.future.FutureGone?) <==> h.destructions == 1)
  {
    RunKeepsInv(CREATED, run);
    var s := Run(CREATED, run);
    forall a | Enabled(s, a) && TouchesState(a) ensures s.life.destructions == 0 { NothingIsTouchedLate(s, a); }
  }

  /**
    For every interleaving: once Ready is set, get() delivers what exactly one setter was given, or the
    broken promise if that setter was the destructor; every other one is still trying or has been refused.
  */
  lemma GetDeliversWhatWasSet(run: seq<Action>, op: Op)
    requires CanRun(CREATED, run) && Run(CREATED, run).result.flags.ready
    ensures var r := Run(CREATED, run).result;
      && !r.winner.Nobody? && HoldsResult(r, r.winner.payload) && Obtained(r) == r.winner.payload
      && (r.winner.setter.Destructor? ==> Obtained(r) == BROKEN_PROMISE)
      && (IsWinner(r, op) ==> op in r.given && Obtained(r) == r.given[op] && op !in r.setting && op !in r.refused)
      && (op in r.given && !IsWinner(r, op) ==> op in r.setting || op in r.refused)
  {
    RunKeepsInv(CREATED, run);
    assert SetterInv(Run(CREATED, run).result, op);
  }

  /** A setter throws only because another one was first, and get_future only because a future is attached. */
  lemma RefusedOnlyIfLate(run: seq<Action>)
    requires CanRun(CREATED, run)
    ensures var s := Run(CREATED, run);
      && (s.result.refused != {} ==> !s.result.winner.Nobody? && s.result.flags.satisfied)
      && (s.life.denied != {} ==> s.result.flags.attached)
  {
    RunKeepsInv(CREATED, run);
    var s := Run(CREATED, run);
    forall op | op in s.result.refused ensures !s.result.winner.Nobody? {
      assert SetterInv(s.result, op);
    }
  }

  /**
    While nobody has won, the round of a setter whose flags are still the current ones makes it the winner, with
    its own payload; in any other case it tries again with the current flags.
  */
  lemma FirstSetterWins(s: State, op: Op)
    requires Inv(s) && op in s.result.setting && s.result.winner.Nobody?
    ensures Enabled(s, TrySetting(op)) && op in s.result.given
    ensures var r := Step(s, TrySetting(op)).result;
      if s.result.setting[op].seen == s.result.flags
      then r.winner == Storing(Call(op), s.result.given[op]) && op !in r.setting && r.refused == s.result.refused
      else r == s.result.(setting := s.result.setting[op := Attempt(s.result.flags, s.result.given[op])])
  {
    assert SetterInv(s.result, op);
  }

  /** The winner stores its payload, sets Ready and posts the token, one after the other and without waiting. */
  lemma WinnerFinishes(s: State)
    requires Inv(s)
    ensures s.result.winner.Storing? ==>
      && Enabled(s, StorePayload)
      && Step(s, StorePayload).result.winner == Flagging(s.result.winner.setter, s.result.winner.payload)
    ensures s.result.winner.Flagging? ==>
      && Enabled(s, SetReady)
      && Step(s, SetReady).result.winner == Notifying(s.result.winner.setter, s.result.winner.payload)
      && Step(s, SetReady).result.flags.ready
    ensures s.result.winner.Notifying? ==>
      && Enabled(s, Notify)
      && Step(s, Notify).result.winner == Done(s.result.winner.setter, s.result.winner.payload)
      && Step(s, Notify).cv.tokens == s.cv.tokens + 1
  {
  }

  /** While no future is attached, the round of a get_future call whose flags are current gives its caller the future. */
  lemma FirstRetrievalSucceeds(s: State, op: Op)
    requires Inv(s) && op in s.life.retrieving && !s.result.flags.attached
    ensures Enabled(s, TryRetrieving(op))
    ensures var s' := Step(s, TryRetrieving(op));
      if s.life.retrieving[op] == s.result.flags
      then s'.result.flags.attached && op !in s'.life.retrieving && s'.life.denied == s.life.denied
           && Enabled(s', CountFuture) && Step(s', CountFuture).life.future.Held?
           && Step(s', CountFuture).life.references == s.life.references + 1
      else s' == s.(life := s.life.(retrieving := s.life.retrieving[op := s.result.flags]))
  {
  }

  /** Once a future is attached, a get_future call throws, at the latest in its second round, and changes nothing else. */
  lemma LateRetrievalIsDenied(s: State, op: Op)
    requires Inv(s) && op in s.life.retrieving && s.result.flags.attached
    ensures var s' := Step(s, TryRetrieving(op));
      && s' == s.(life := s.life.(retrieving := s'.life.retrieving, denied := s'.life.denied))
      && if s.life.retrieving[op].attached then op in s'.life.denied && op !in s'.life.retrieving
         else Enabled(s', TryRetrieving(op)) && op in Step(s', TryRetrieving(op)).life.denied
  {
  }

  /** The calls on a live promise start with the current flags, and its destructor can start when none is under way. */
  lemma CallsStart(s: State, op: Op, payload: Payload)
    requires Inv(s) && s.life.promise.Alive?
    ensures op !in s.result.given ==>
      && Enabled(s, StartSetting(op, payload))
      && var r := Step(s, StartSetting(op, payload)).result;
      r.setting == s.result.setting[op := Attempt(s.result.flags, payload)] && r.given == s.result.given[op := payload]
    ensures op !in s.life.retrieving ==>
      && Enabled(s, StartRetrieving(op))
      && Step(s, StartRetrieving(op)).life.retrieving == s.life.retrieving[op := s.result.flags]
    ensures s.result.setting == map[] && s.life.retrieving == map[] && !s.life.future.Counting? && !InFlight(s.result.winner)
      ==> Enabled(s, BeginPromiseDestructor)
  {
  }

  /** The end of the handles: each drops its reference, and the last one destroys the state. */
  lemma HandlesEnd(s: State)
    requires Inv(s)
    ensures s.life.promise.Breaking? && s.result.winner.Done? ==> Enabled(s, EndBreaking) && Enabled(Step(s, EndBreaking), DropPromise)
    ensures s.life.promise.PromiseDropping? ==>
      && Enabled(s, DropPromise)
      && var h := Step(s, DropPromise).life;
      h.references == s.life.references - 1 && h.promise == if s.life.future.Held? then PromiseGone else PromiseDestroying
    ensures s.life.future.Held? && Waiting(s.cv) == {} ==>
      && Enabled(s, DropFuture)
      && var h := Step(s, DropFuture).life;
      h.references == s.life.references - 1 && h.future == if PromiseCounted(s.life) then FutureGone else FutureDestroying
    ensures s.life.promise.PromiseDestroying? ==> Enabled(s, DestroyByPromise) && Step(s, DestroyByPromise).life.destructions == 1
    ensures s.life.future.FutureDestroying? ==> Enabled(s, DestroyByFuture) && Step(s, DestroyByFuture).life.destructions == 1
  {
  }

  /** A waiter tests Ready; it blocks if it is not set and is served if it is. */
  lemma WaiterTestsReady(s: State, op: Op)
    requires Inv(s)
    ensures s.life.future.Held? && op !in Waiting(s.cv) ==>
      Enabled(s, StartWaiting(op)) && Step(s, StartWaiting(op)).cv.testing == s.cv.testing + {op}
    ensures op in s.cv.testing ==>
      var c := Step(s, TestReady(op)).cv;
      op !in c.testing && if s.result.flags.ready then c.served == s.cv.served + {op} else c.blocked == s.cv.blocked + {op}
  {
  }

  /** A blocked waiter gets the token or times out; the token is put back at once, before the next test. */
  lemma WaiterPassesTheTokenOn(s: State, op: Op)
    requires Inv(s)
    ensures op in s.cv.blocked ==>
      if s.cv.tokens == 0 then Enabled(s, TimeOut(op)) && op !in Waiting(Step(s, TimeOut(op)).cv)
      else Enabled(s, TakeToken(op)) && Step(s, TakeToken(op)).cv.reposting == s.cv.reposting + {op}
    ensures op in s.cv.reposting ==>
      var c := Step(s, Repost(op)).cv; c.tokens == s.cv.tokens + 1 && op in c.testing && op !in c.reposting
  {
  }

  /** The destructor of a promise breaks it if and only if nothing was set while a future holds the state. */
  lemma DestructorBreaksUnsetPromise(s: State)
    requires Inv(s) && Enabled(s, BeginPromiseDestructor)
    ensures var s' := Step(s, BeginPromiseDestructor);
      if s.result.winner.Nobody? && s.life.future.Held?
      then s'.result.winner == Storing(Destructor, BROKEN_PROMISE) && s'.life.promise.Breaking?
      else s'.result == s.result && Enabled(s', DropPromise)
  {
  }

  lemma ReadyIsKept(s: State, a: Action)
    requires OutcomeInv(s.result) && Enabled(s, a) && s.result.flags.ready
    ensures var r := Step(s, a).result;
      r.flags.ready && r.value == s.result.value && r.exception == s.result.exception && r.stores == s.result.stores
  {
  }

  /** The first result is final: once Ready is set nothing changes it, whoever else tries to set one. */
  lemma {:induction false} ResultIsFinal(s: State, run: seq<Action>)
    requires Inv(s) && CanRun(s, run) && s.result.flags.ready
    ensures var r := Run(s, run).result;
      r.flags.ready && r.value == s.result.value && r.exception == s.result.exception && r.stores == s.result.stores
    decreases |run|
  {
    if run != [] {
      StepKeepsInv(s, run[0]);
      ReadyIsKept(s, run[0]);
      ResultIsFinal(Step(s, run[0]), run[1..]);
    }
  }

  /** A setter that reads the flags after another one won is refused, at the latest in its second round, and changes nothing else. */
  lemma LateSetterIsRefused(s: State, op: Op)
    requires Inv(s) && op in s.result.setting && !s.result.winner.Nobody?
    ensures var s' := Step(s, TrySetting(op)); var r' := s'.result;
      && s' == s.(result := s.result.(setting := r'.setting, refused := r'.refused))
      && (op in r'.refused ||
          (op in r'.setting && r'.setting[op].seen.satisfied && op in Step(s', TrySetting(op)).result.refused))
  {
  }

  /** No waiter goes away with a result, or gets the token, before Ready is set. */
  lemma NoWaiterGoesEarly(run: seq<Action>)
    requires CanRun(CREATED, run)
    ensures var s := Run(CREATED, run); s.cv.served != {} || s.cv.reposting != {} ==> s.result.flags.ready
  {
    RunKeepsInv(CREATED, run);
  }

  /**
    The one-shot condition variable never strands a waiter: after the notification there is exactly one
    token, in the semaphore or with a waiter that is about to put it back, and every waiter can go on as
    soon as no other one is about to put it back.
  */
  lemma NoWaiterIsStranded(run: seq<Action>, op: Op)
    requires CanRun(CREATED, run) && Run(CREATED, run).result.winner.Done?
    ensures var s := Run(CREATED, run); var c := s.cv;
      && c.tokens + |c.reposting| == 1
      && (op in c.testing ==> Enabled(s, TestReady(op)) && op !in Step(s, TestReady(op)).cv.blocked)
      && (op in c.reposting ==> Enabled(s, Repost(op)))
      && (op in c.blocked && c.reposting == {} ==> Enabled(s, TakeToken(op)))
  {
    RunKeepsInv(CREATED, run);
  }
}
