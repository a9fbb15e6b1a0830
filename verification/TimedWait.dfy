/**
condition_variable::wait_for and wait_until as an interleaved protocol: any number
of threads enqueue a node, block on its semaphore with a timeout and leave, while
others call notify_one and notify_all. Every SVC call, semaphore operation and
tag load is one step. A call is identified by the ticket of its node.
*/
module TimedWait {
  import opened QueueOrder

  type Call = nat

  datatype Stage =
    | Blocked                     // inside m_s.try_wait_for
    | Woken                       // the semaphore was taken: no_timeout
    | TimedOut                    // the wait returned false, unlink() not entered
    | MustUnlink                  // unlink() read a word without the detached bit
    | Reloading                   // the SVC unlink is done, the word is read again
    | Decided(noTimeout: bool)    // the status to return, before ~_t()

  datatype Node = Node(stage: Stage, notified: bool, detached: bool, tokens: nat, posts: nat)

  /** popped and returned are history: which calls a notification took off, and what was returned. */
  datatype State = State(
    queue: Queue<Call>,
    nodes: map<Call, Node>,
    popped: set<Call>,
    returned: map<Call, bool>)

  datatype Action =
    | Enter(prio: int)
    | NotifyOne
    | NotifyAll
    | TakeToken(c: Call)
    | TimeOut(c: Call)
    | LoadTag(c: Call)
    | SvcUnlink(c: Call)
    | LoadAgain(c: Call)
    | Return(c: Call)

  const INITIAL := State(Queue([], 0), map[], {}, map[])

  predicate At(s: State, c: Call, stage: Stage) {
    c in s.nodes && s.nodes[c].stage == stage
  }

  predicate Enabled(s: State, a: Action) {
    match a
    case Enter(_) => true
    case NotifyOne => true
    case NotifyAll => true
    case TakeToken(c) => At(s, c, Blocked) && s.nodes[c].tokens > 0
    case TimeOut(c) => At(s, c, Blocked) && s.nodes[c].tokens == 0
    case LoadTag(c) => At(s, c, TimedOut)
    case SvcUnlink(c) => At(s, c, MustUnlink)
    case LoadAgain(c) => At(s, c, Reloading)
    case Return(c) => c in s.nodes && (s.nodes[c].stage.Woken? || s.nodes[c].stage.Decided?)
  }

  function Posted(n: Node): Node {
    n.(notified := true, detached := true, tokens := n.tokens + 1, posts := n.posts + 1)
  }

  /** What a notification that takes the calls in `taken` off the queue does to the nodes. */
  function Notified(s: State, taken: set<Call>, queue: Queue<Call>): State {
    State(queue,
          map c | c in s.nodes :: if c in taken then Posted(s.nodes[c]) else s.nodes[c],
          s.popped + taken,
          s.returned)
  }

  function Update(s: State, c: Call, n: Node): State {
    s.(nodes := s.nodes[c := n])
  }

  function Step(s: State, a: Action): State
    requires Enabled(s, a)
  {
    match a
    case Enter(prio) =>
      var c := s.queue.tickets;
      State(Linked(s.queue, c, prio), s.nodes[c := Node(Blocked, false, false, 0, 0)], s.popped, s.returned)
    case NotifyOne =>
      if s.queue.entries == [] then s else Notified(s, {s.queue.entries[0].who}, Popped(s.queue))
    case NotifyAll =>
      Notified(s, Members(s.queue.entries), s.queue.(entries := []))
    case TakeToken(c) =>
      Update(s, c, s.nodes[c].(stage := Woken, tokens := s.nodes[c].tokens - 1))
    case TimeOut(c) =>
      Update(s, c, s.nodes[c].(stage := TimedOut))
    case LoadTag(c) =>
      var n := s.nodes[c];
      Update(s, c, n.(stage := if n.detached then Decided(n.notified) else MustUnlink))
    case SvcUnlink(c) =>
      Update(s.(queue := Unlinked(s.queue, c)), c, s.nodes[c].(stage := Reloading, detached := true))
    case LoadAgain(c) =>
      Update(s, c, s.nodes[c].(stage := Decided(s.nodes[c].notified)))
    case Return(c) =>
      s.(nodes := s.nodes - {c}, returned := s.returned[c := s.nodes[c].stage.Woken? || s.nodes[c].stage.noTimeout])
  }

  predicate CanRun(s: State, run: seq<Action>)
    decreases |run|
  {
    run == [] || (Enabled(s, run[0]) && CanRun(Step(s, run[0]), run[1..]))
  }

  function Run(s: State, run: seq<Action>): State
    requires CanRun(s, run)
    decreases |run|
  {
    if run == [] then s else Run(Step(s, run[0]), run[1..])
  }

  ghost predicate NodeInv(s: State, c: Call)
    requires c in s.nodes
  {
    var n := s.nodes[c];
    && c < s.queue.tickets && c !in s.returned
    && (n.notified <==> c in s.popped)
    && (c in Members(s.queue.entries) <==> !n.detached)
    && (n.notified ==> n.detached)
    && n.posts == (if n.notified then 1 else 0)
    && n.tokens == (if n.notified && !n.stage.Woken? then 1 else 0)
    && (n.stage.Blocked? || n.stage.TimedOut? || n.stage.MustUnlink? ==> (n.detached ==> n.notified))
    && (n.stage.Woken? ==> n.notified)
    && (n.stage.Reloading? || n.stage.Decided? ==> n.detached)
    && (n.stage.Decided? ==> n.stage.noTimeout == n.notified)
  }

  ghost predicate Inv(s: State) {
    && QueueOrder.Inv(s.queue)
    && (forall c :: c in s.nodes ==> NodeInv(s, c))
    && Members(s.queue.entries) <= s.nodes.Keys
    && (forall c :: c in s.returned ==> c < s.queue.tickets && (s.returned[c] <==> c in s.popped))
    && (forall c :: c in s.popped ==> c in s.nodes || c in s.returned)
  }

  lemma NotifyKeepsInv(s: State, taken: set<Call>, queue: Queue<Call>)
    requires Inv(s) && taken <= Members(s.queue.entries)
    requires QueueOrder.Inv(queue) && queue.tickets == s.queue.tickets
    requires Members(queue.entries) == Members(s.queue.entries) - taken
    ensures Inv(Notified(s, taken, queue))
  {
    var s' := Notified(s, taken, queue);
    forall c | c in s'.nodes ensures NodeInv(s', c) {
      assert NodeInv(s, c);
    }
  }

  lemma UpdateKeepsInv(s: State, c: Call, n: Node)
    requires Inv(s) && c in s.nodes && NodeInv(Update(s, c, n), c)
    ensures Inv(Update(s, c, n))
  {
    var s' := Update(s, c, n);
    forall d | d in s'.nodes ensures NodeInv(s', d) {
      assert d != c ==> NodeInv(s, d);
    }
  }

  lemma EnterKeepsInv(s: State, prio: int)
    requires Inv(s)
    ensures Inv(Step(s, Enter(prio)))
  {
    var s', c := Step(s, Enter(prio)), s.queue.tickets;
    assert c !in Members(s.queue.entries);
    LinkKeepsInv(s.queue, c, prio);
    LinkedMembers(s.queue, c, prio);
    forall d | d in s'.nodes ensures NodeInv(s', d) {
      assert d != c ==> NodeInv(s, d);
    }
  }

  lemma SvcUnlinkKeepsInv(s: State, c: Call)
    requires Inv(s) && Enabled(s, SvcUnlink(c))
    ensures Inv(Step(s, SvcUnlink(c)))
  {
    var s' := Step(s, SvcUnlink(c));
    UnlinkKeepsInv(s.queue, c);
    UnlinkedMembers(s.queue, c);
    forall d | d in s'.nodes ensures NodeInv(s', d) {
      assert NodeInv(s, d);
    }
  }

  lemma ReturnKeepsInv(s: State, c: Call)
    requires Inv(s) && Enabled(s, Return(c))
    ensures Inv(Step(s, Return(c)))
  {
    var s' := Step(s, Return(c));
    assert NodeInv(s, c);
    ReturningIsOffTheQueue(s, c);
    forall d | d in s'.nodes ensures NodeInv(s', d) {
      assert NodeInv(s, d);
    }
  }

  /** The steps that change the node of one call only. */
  lemma OwnStepKeepsInv(s: State, a: Action)
    requires Inv(s) && Enabled(s, a) && (a.TakeToken? || a.TimeOut? || a.LoadTag? || a.LoadAgain?)
    ensures Inv(Step(s, a))
  {
    assert NodeInv(s, a.c);
    UpdateKeepsInv(s, a.c, Step(s, a).nodes[a.c]);
  }

  lemma StepKeepsInv(s: State, a: Action)
    requires Inv(s) && Enabled(s, a)
    ensures Inv(Step(s, a))
  {
    match a {
      case Enter(prio) => EnterKeepsInv(s, prio);
      case NotifyOne =>
        if s.queue.entries != [] {
          PopKeepsInv(s.queue);
          NotifyKeepsInv(s, {s.queue.entries[0].who}, Popped(s.queue));
        }
      case NotifyAll => NotifyKeepsInv(s, Members(s.queue.entries), s.queue.(entries := []));
      case SvcUnlink(c) => SvcUnlinkKeepsInv(s, c);
      case Return(c) => ReturnKeepsInv(s, c);
      case TakeToken(c) => OwnStepKeepsInv(s, a);
      case TimeOut(c) => OwnStepKeepsInv(s, a);
      case LoadTag(c) => OwnStepKeepsInv(s, a);
      case LoadAgain(c) => OwnStepKeepsInv(s, a);
    }
  }

  /** ~_t() has nothing left to do: a call that returns is detached, so it is not on the queue. */
  lemma ReturningIsOffTheQueue(s: State, c: Call)
    requires Inv(s) && Enabled(s, Return(c))
    ensures s.nodes[c].detached && c !in Members(s.queue.entries)
  {
    assert NodeInv(s, c);
  }

  lemma {:induction false} RunKeepsInv(s: State, run: seq<Action>)
    requires Inv(s) && CanRun(s, run)
    ensures Inv(Run(s, run))
    decreases |run|
  {
    if run != [] {
      StepKeepsInv(s, run[0]);
      RunKeepsInv(Step(s, run[0]), run[1..]);
    }
  }

  /** The calls that were popped and have not returned yet. */
  function OnTheirWayOut(s: State): set<Call> {
    set c | c in s.nodes && s.nodes[c].notified
  }

  function NoTimeoutReturns(s: State): set<Call> {
    set c | c in s.returned && s.returned[c]
  }

  /**
    Notifications are conserved in every interleaving: a call returned no_timeout exactly if a
    notification took it off the queue, the popped calls are those that returned no_timeout and
    those still on their way out, and no semaphore is posted twice.
  */
  lemma NotificationsAreConserved(run: seq<Action>)
    requires CanRun(INITIAL, run)
    ensures var s := Run(INITIAL, run);
      && (forall c :: c in s.returned ==> (s.returned[c] <==> c in s.popped))
      && s.popped == NoTimeoutReturns(s) + OnTheirWayOut(s)
      && NoTimeoutReturns(s) !! OnTheirWayOut(s)
      && |s.popped| == |NoTimeoutReturns(s)| + |OnTheirWayOut(s)|
      && (forall c :: c in s.nodes ==> s.nodes[c].posts <= 1)
  {
    RunKeepsInv(INITIAL, run);
    PoppedAreAccountedFor(Run(INITIAL, run));
  }

  lemma PoppedAreAccountedFor(s: State)
    requires Inv(s)
    ensures s.popped == NoTimeoutReturns(s) + OnTheirWayOut(s)
    ensures NoTimeoutReturns(s) !! OnTheirWayOut(s)
    ensures forall c :: c in s.nodes ==> s.nodes[c].posts <= 1
  {
    forall c | c in s.nodes
      ensures s.nodes[c].posts <= 1 && c !in s.returned && (s.nodes[c].notified <==> c in s.popped)
    {
      assert NodeInv(s, c);
    }
  }

  lemma Prepend(s: State, a: Action, rest: seq<Action>)
    requires Enabled(s, a) && CanRun(Step(s, a), rest)
    ensures CanRun(s, [a] + rest) && Run(s, [a] + rest) == Run(Step(s, a), rest)
  {
    assert ([a] + rest)[1..] == rest;
  }

  /** notify_one takes exactly the head off the queue, if there is one, and notify_all takes everybody; each call taken gets its token. */
  lemma NotificationsTake(s: State)
    requires Inv(s)
    ensures var s' := Step(s, Action.NotifyOne);
      if s.queue.entries == [] then s' == s
      else
        var head := s.queue.entries[0].who;
        && s'.queue.entries == s.queue.entries[1..] && s'.popped == s.popped + {head} && head !in s.popped
        && (forall c :: c in s.nodes ==> c in s'.nodes && s'.nodes[c].tokens == s.nodes[c].tokens + if c == head then 1 else 0)
    ensures var s' := Step(s, Action.NotifyAll);
      && s'.queue.entries == [] && s'.popped == s.popped + Members(s.queue.entries) && s.popped !! Members(s.queue.entries)
      && (forall c :: c in s.nodes ==>
            c in s'.nodes && s'.nodes[c].tokens == s.nodes[c].tokens + if c in Members(s.queue.entries) then 1 else 0)
  {
    forall c | c in Members(s.queue.entries) ensures c in s.nodes && c !in s.popped {
      assert NodeInv(s, c);
    }
  }

  /** A call starts linked and blocked, without a token; the SVC function takes it off the queue. */
  lemma LinkedUntilUnlink(s: State, c: Call, prio: int)
    requires Inv(s)
    ensures var s' := Step(s, Enter(prio));
      At(s', s.queue.tickets, Blocked) && s'.nodes[s.queue.tickets].tokens == 0 && s.queue.tickets in Members(s'.queue.entries)
    ensures At(s, c, MustUnlink) ==>
      At(Step(s, SvcUnlink(c)), c, Reloading) && c !in Members(Step(s, SvcUnlink(c)).queue.entries)
  {
    LinkedMembers(s.queue, s.queue.tickets, prio);
    UnlinkedMembers(s.queue, c);
  }

  /** The token wakes a call; without one the timeout does, and the SVC function is called only if the node is not detached yet. */
  lemma WakingUp(s: State, c: Call)
    requires Inv(s)
    ensures At(s, c, Blocked) && s.nodes[c].tokens > 0 ==> Enabled(s, TakeToken(c)) && At(Step(s, TakeToken(c)), c, Woken)
    ensures At(s, c, Blocked) && s.nodes[c].tokens == 0 ==> Enabled(s, TimeOut(c)) && At(Step(s, TimeOut(c)), c, TimedOut)
    ensures At(s, c, TimedOut) ==>
      At(Step(s, LoadTag(c)), c, if s.nodes[c].detached then Decided(s.nodes[c].notified) else MustUnlink)
    ensures At(s, c, Reloading) ==> At(Step(s, LoadAgain(c)), c, Decided(s.nodes[c].notified))
  {
  }

  /** A call that was woken returns no_timeout, and one that has decided returns what it has decided. */
  lemma ReturnsItsDecision(s: State, c: Call)
    requires Inv(s) && Enabled(s, Return(c))
    ensures var s' := Step(s, Return(c));
      c !in s'.nodes && s'.returned == s.returned[c := At(s, c, Woken) || At(s, c, Decided(true))]
  {
  }

  /** A call that was popped before its unlink reads the notified bit afterwards. */
  lemma LateNotificationIsSeen(s: State)
    requires s.nodes == map[0 := Node(MustUnlink, true, true, 1, 1)] && s.returned == map[]
    ensures var rest := [SvcUnlink(0), LoadAgain(0), Return(0)];
      CanRun(s, rest) && Run(s, rest).returned == map[0 := true]
  {
    var rest := [SvcUnlink(0), LoadAgain(0), Return(0)];
    var s1 := Step(s, rest[0]);
    var s2 := Step(s1, rest[1]);
    Prepend(s2, rest[2], []);
    Prepend(s1, rest[1], rest[2..]);
    Prepend(s, rest[0], rest[1..]);
  }

  /** The late case: the timeout fires first, a notification arrives before the unlink, and no_timeout is returned. */
  lemma LateNotificationCounts()
    ensures var run := [Enter(0), TimeOut(0), LoadTag(0), Action.NotifyOne, SvcUnlink(0), LoadAgain(0), Return(0)];
      CanRun(INITIAL, run) && Run(INITIAL, run).returned == map[0 := true]
  {
    var run := [Enter(0), TimeOut(0), LoadTag(0), Action.NotifyOne, SvcUnlink(0), LoadAgain(0), Return(0)];
    var s1 := Step(INITIAL, run[0]);
    var s3 := Step(Step(s1, run[1]), run[2]);
    assert s3.queue.entries == [Entry(0, 0, 0)];
    var s4 := Step(s3, run[3]);
    assert s4.nodes == map[0 := Node(MustUnlink, true, true, 1, 1)];
    LateNotificationIsSeen(s4);
    Prepend(s3, run[3], run[4..]);
    Prepend(Step(s1, run[1]), run[2], run[3..]);
    Prepend(s1, run[1], run[2..]);
    Prepend(INITIAL, run[0], run[1..]);
  }

  /** Until a call has returned, it can always take a step, or it is linked and waits for a notification or its timeout. */
  lemma CallsNeverStick(run: seq<Action>, c: Call)
    requires CanRun(INITIAL, run) && c in Run(INITIAL, run).nodes
    ensures var s := Run(INITIAL, run);
      || Enabled(s, TakeToken(c)) || Enabled(s, LoadTag(c)) || Enabled(s, SvcUnlink(c))
      || Enabled(s, LoadAgain(c)) || Enabled(s, Return(c))
      || (Enabled(s, TimeOut(c)) && c in Members(s.queue.entries))
  {
    RunKeepsInv(INITIAL, run);
    CallCanGoOn(Run(INITIAL, run), c);
  }

  lemma CallCanGoOn(s: State, c: Call)
    requires c in s.nodes && NodeInv(s, c)
    ensures
      || Enabled(s, TakeToken(c)) || Enabled(s, LoadTag(c)) || Enabled(s, SvcUnlink(c))
      || Enabled(s, LoadAgain(c)) || Enabled(s, Return(c))
      || (Enabled(s, TimeOut(c)) && c in Members(s.queue.entries))
  {
  }
}
