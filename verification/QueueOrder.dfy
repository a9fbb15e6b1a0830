/**
The order in which the wait queue of src/_cmsis_rtos/_tq.cpp releases its
waiters, on plain sequences. A queue is the list of entries from the head on;
an entry carries the waiter, its priority and a ticket that numbers the link
calls. The linked structure in TaskQueue.dfy is proved against these functions.
*/
module QueueOrder {

  datatype Entry<T> = Entry(who: T, prio: int, ticket: nat)

  datatype Queue<T> = Queue(entries: seq<Entry<T>>, tickets: nat)

  function Members<T>(q: seq<Entry<T>>): (s: set<T>)
    ensures forall i :: 0 <= i < |q| ==> q[i].who in s
    ensures forall w :: w in s ==> exists i :: 0 <= i < |q| && q[i].who == w
  {
    set i | 0 <= i < |q| :: q[i].who
  }

  ghost predicate Distinct<T>(q: seq<Entry<T>>) {
    forall i, j :: 0 <= i < j < |q| ==> q[i].who != q[j].who
  }

  /** Behind the head the priorities never increase. The head itself is unconstrained. */
  ghost predicate SortedBehindHead<T>(q: seq<Entry<T>>) {
    forall i, j :: 1 <= i < j < |q| ==> q[i].prio >= q[j].prio
  }

  /** Equal priorities stand in the order of their link calls, the head included. */
  ghost predicate FirstComeFirstServed<T>(q: seq<Entry<T>>) {
    forall i, j :: 0 <= i < j < |q| && q[i].prio == q[j].prio ==> q[i].ticket < q[j].ticket
  }

  ghost predicate Inv<T>(s: Queue<T>) {
    && Distinct(s.entries)
    && SortedBehindHead(s.entries)
    && FirstComeFirstServed(s.entries)
    && (forall i :: 0 <= i < |s.entries| ==> s.entries[i].ticket < s.tickets)
  }

  /** The index at which link() inserts: the walk starts behind the head and passes equal priorities. */
  function InsertAt<T>(q: seq<Entry<T>>, prio: int, from: nat): (k: nat)
    requires 1 <= from <= |q|
    ensures from <= k <= |q|
    ensures forall i :: from <= i < k ==> q[i].prio >= prio
    ensures k < |q| ==> q[k].prio < prio
    decreases |q| - from
  {
    if from < |q| && q[from].prio >= prio then InsertAt(q, prio, from + 1) else from
  }

  function Inserted<T>(q: seq<Entry<T>>, e: Entry<T>): seq<Entry<T>> {
    if q == [] then [e] else var k := InsertAt(q, e.prio, 1); q[..k] + [e] + q[k..]
  }

  function Linked<T>(s: Queue<T>, who: T, prio: int): Queue<T> {
    Queue(Inserted(s.entries, Entry(who, prio, s.tickets)), s.tickets + 1)
  }

  function Without<T(==)>(q: seq<Entry<T>>, who: T): (r: seq<Entry<T>>)
    ensures |r| <= |q|
  {
    if q == [] then []
    else if q[0].who == who then q[1..]
    else [q[0]] + Without(q[1..], who)
  }

  function Unlinked<T(==)>(s: Queue<T>, who: T): Queue<T> {
    s.(entries := Without(s.entries, who))
  }

  /** notify_one() drops the head, if there is one. */
  function Popped<T>(s: Queue<T>): Queue<T> {
    if s.entries == [] then s else s.(entries := s.entries[1..])
  }

  /** Element by element, a cut at k. */
  ghost predicate IsCut<T>(q: seq<Entry<T>>, r: seq<Entry<T>>, k: nat) {
    && |q| == |r| + 1 && k < |q|
    && (forall i :: 0 <= i < |r| ==> r[i] == q[if i < k then i else i + 1])
  }

  /** Removing a waiter that is present is a cut at its place. */
  lemma {:induction false} WithoutCuts<T>(q: seq<Entry<T>>, who: T) returns (k: nat)
    requires who in Members(q)
    ensures k < |q| && q[k].who == who && IsCut(q, Without(q, who), k)
  {
    if q[0].who == who {
      k := 0;
    } else {
      var i :| 0 <= i < |q| && q[i].who == who;
      assert q[1..][i - 1].who == who;
      var k' := WithoutCuts(q[1..], who);
      k := k' + 1;
    }
  }

  /** Removing a waiter that is absent changes nothing. */
  lemma {:induction false} WithoutAbsent<T>(q: seq<Entry<T>>, who: T)
    requires who !in Members(q)
    ensures Without(q, who) == q
  {
    if q != [] {
      assert forall i :: 1 <= i < |q| ==> q[1..][i - 1] == q[i];
      WithoutAbsent(q[1..], who);
    }
  }

  lemma LinkedMembers<T>(s: Queue<T>, who: T, prio: int)
    ensures Members(Linked(s, who, prio).entries) == Members(s.entries) + {who}
    ensures |Linked(s, who, prio).entries| == |s.entries| + 1
  {
    var q, r := s.entries, Linked(s, who, prio).entries;
    if q != [] {
      var k := InsertAt(q, prio, 1);
      assert r[k].who == who;
      forall i | 0 <= i < |q| ensures q[i].who in Members(r) {
        assert r[if i < k then i else i + 1] == q[i];
      }
    } else {
      assert r[0].who == who;
    }
  }

  lemma UnlinkedMembers<T>(s: Queue<T>, who: T)
    requires Distinct(s.entries)
    ensures Members(Unlinked(s, who).entries) == Members(s.entries) - {who}
  {
    var q, r := s.entries, Unlinked(s, who).entries;
    if who in Members(q) {
      var k := WithoutCuts(q, who);
      forall i | 0 <= i < |q| && i != k ensures q[i].who in Members(r) {
        assert r[if i < k then i else i - 1] == q[i];
      }
    } else {
      WithoutAbsent(q, who);
    }
  }

  /** Element by element, an insertion at k. */
  ghost predicate IsInsertion<T>(q: seq<Entry<T>>, e: Entry<T>, r: seq<Entry<T>>, k: nat) {
    && |r| == |q| + 1 && k <= |q|
    && r[k] == e
    && (forall i :: 0 <= i < |r| && i != k ==> r[i] == q[if i < k then i else i - 1])
    && (forall i :: 1 <= i < k ==> q[i].prio >= e.prio)
    && (k == 0 ==> q == [])
    && (k < |q| ==> q[k].prio < e.prio)
  }

  lemma InsertedIsInsertion<T>(q: seq<Entry<T>>, e: Entry<T>) returns (k: nat)
    ensures IsInsertion(q, e, Inserted(q, e), k)
  {
    k := if q == [] then 0 else InsertAt(q, e.prio, 1);
  }

  /** Once an entry behind the head has a priority below p, all later ones have. */
  lemma BelowFrom<T>(q: seq<Entry<T>>, k: nat, p: int)
    requires SortedBehindHead(q) && 1 <= k && (k < |q| ==> q[k].prio < p)
    ensures forall i :: k <= i < |q| ==> q[i].prio < p
  {
    forall i | k <= i < |q| ensures q[i].prio < p {
      assert i > k ==> q[k].prio >= q[i].prio;
    }
  }

  lemma InsertionKeepsInv<T>(q: seq<Entry<T>>, e: Entry<T>, r: seq<Entry<T>>, k: nat)
    requires Inv(Queue(q, e.ticket)) && e.who !in Members(q) && IsInsertion(q, e, r, k)
    ensures Inv(Queue(r, e.ticket + 1))
  {
    if k > 0 { BelowFrom(q, k, e.prio); }
    forall i, j | 0 <= i < j < |r|
      ensures r[i].who != r[j].who
      ensures i >= 1 ==> r[i].prio >= r[j].prio
      ensures r[i].prio == r[j].prio ==> r[i].ticket < r[j].ticket
    {
      var i', j' := if i < k then i else i - 1, if j < k then j else j - 1;
      assert i != k ==> r[i] == q[i'];
      assert j != k ==> r[j] == q[j'];
    }
  }

  lemma CutKeepsInv<T>(s: Queue<T>, r: seq<Entry<T>>, k: nat)
    requires Inv(s) && IsCut(s.entries, r, k)
    ensures Inv(s.(entries := r))
  {
    var q := s.entries;
    forall i, j | 0 <= i < j < |r|
      ensures r[i].who != r[j].who
      ensures i >= 1 ==> r[i].prio >= r[j].prio
      ensures r[i].prio == r[j].prio ==> r[i].ticket < r[j].ticket
    {
      var i', j' := if i < k then i else i + 1, if j < k then j else j + 1;
      assert r[i] == q[i'] && r[j] == q[j'];
    }
  }

  lemma LinkKeepsInv<T>(s: Queue<T>, who: T, prio: int)
    requires Inv(s) && who !in Members(s.entries)
    ensures Inv(Linked(s, who, prio))
  {
    var e := Entry(who, prio, s.tickets);
    var k := InsertedIsInsertion(s.entries, e);
    InsertionKeepsInv(s.entries, e, Inserted(s.entries, e), k);
  }

  lemma UnlinkKeepsInv<T>(s: Queue<T>, who: T)
    requires Inv(s)
    ensures Inv(Unlinked(s, who))
  {
    var q := s.entries;
    if who in Members(q) {
      var k := WithoutCuts(q, who);
      CutKeepsInv(s, Without(q, who), k);
    } else {
      WithoutAbsent(q, who);
    }
  }

  lemma PopKeepsInv<T>(s: Queue<T>)
    requires Inv(s)
    ensures Inv(Popped(s))
    ensures s.entries != [] ==> Members(Popped(s).entries) == Members(s.entries) - {s.entries[0].who}
  {
    var q := s.entries;
    if q != [] {
      forall w | w in Members(q) && w != q[0].who ensures w in Members(q[1..]) {
        var i :| 0 <= i < |q| && q[i].who == w;
        assert q[1..][i - 1] == q[i];
      }
    }
  }

  // Runs

  datatype Op<T> = Link(who: T, prio: int) | Unlink(who: T) | NotifyOne | NotifyAll

  /** A waiter object is linked once, by its constructor; everything else is always allowed. */
  predicate Allowed<T(==)>(s: Queue<T>, op: Op<T>) {
    op.Link? ==> op.who !in Members(s.entries)
  }

  function Apply<T(==)>(s: Queue<T>, op: Op<T>): Queue<T> {
    match op
    case Link(who, prio) => Linked(s, who, prio)
    case Unlink(who) => Unlinked(s, who)
    case NotifyOne => Popped(s)
    case NotifyAll => s.(entries := [])
  }

  predicate CanRun<T(==)>(s: Queue<T>, ops: seq<Op<T>>)
    decreases |ops|
  {
    ops == [] || (Allowed(s, ops[0]) && CanRun(Apply(s, ops[0]), ops[1..]))
  }

  function Run<T(==)>(s: Queue<T>, ops: seq<Op<T>>): Queue<T>
    decreases |ops|
  {
    if ops == [] then s else Run(Apply(s, ops[0]), ops[1..])
  }

  lemma ApplyKeepsInv<T>(s: Queue<T>, op: Op<T>)
    requires Inv(s) && Allowed(s, op)
    ensures Inv(Apply(s, op))
  {
    match op
    case Link(who, prio) => LinkKeepsInv(s, who, prio);
    case Unlink(who) => UnlinkKeepsInv(s, who);
    case NotifyOne => PopKeepsInv(s);
    case NotifyAll =>
  }

  /** Every serialised sequence of calls leaves the queue duplicate-free, sorted behind the head and fair. */
  lemma {:induction false} RunKeepsInv<T>(s: Queue<T>, ops: seq<Op<T>>)
    requires Inv(s) && CanRun(s, ops)
    ensures Inv(Run(s, ops))
    decreases |ops|
  {
    if ops != [] {
      ApplyKeepsInv(s, ops[0]);
      RunKeepsInv(Apply(s, ops[0]), ops[1..]);
    }
  }

  /** The entries that notify_one() releases, in order, for as long as w is linked; w itself is the last one if released. */
  function ReleasedUntil<T(==)>(s: Queue<T>, ops: seq<Op<T>>, w: T): seq<Entry<T>>
    decreases |ops|
  {
    if ops == [] || w !in Members(s.entries) then []
    else (if ops[0].NotifyOne? then [s.entries[0]] else []) + ReleasedUntil(Apply(s, ops[0]), ops[1..], w)
  }

  /** Where w stands after one call that leaves it linked; nothing of lower or equal priority moved in front of it. */
  ghost predicate OnlyOvertakenByHigher<T>(s: Queue<T>, s': Queue<T>, k: nat, k': nat) {
    && k < |s.entries| && k' < |s'.entries| && s'.entries[k'] == s.entries[k]
    && (forall i :: 0 <= i < k' ==>
          s'.entries[i].prio > s.entries[k].prio || exists j :: 0 <= j < k && s.entries[j] == s'.entries[i])
    && (k' > 0 && s'.entries[0].prio < s.entries[k].prio ==> k > 0 && s'.entries[0] == s.entries[0])
  }

  lemma InsertionKeepsPlace<T>(s: Queue<T>, e: Entry<T>, s': Queue<T>, at: nat, k: nat) returns (k': nat)
    requires Inv(s) && k < |s.entries| && IsInsertion(s.entries, e, s'.entries, at)
    ensures OnlyOvertakenByHigher(s, s', k, k')
  {
    var q, r := s.entries, s'.entries;
    k' := if at <= k then k + 1 else k;
    BelowFrom(q, at, e.prio);
    assert r[k'] == q[k];
    forall i | 0 <= i < k'
      ensures r[i].prio > q[k].prio || exists j :: 0 <= j < k && q[j] == r[i]
    {
      assert i != at ==> r[i] == q[if i < at then i else i - 1];
    }
  }

  lemma CutKeepsPlace<T>(s: Queue<T>, s': Queue<T>, at: nat, k: nat) returns (k': nat)
    requires Inv(s) && k < |s.entries| && IsCut(s.entries, s'.entries, at) && at != k
    ensures OnlyOvertakenByHigher(s, s', k, k')
  {
    var q, r := s.entries, s'.entries;
    k' := if at < k then k - 1 else k;
    assert r[k'] == q[k];
    forall i | 0 <= i < k'
      ensures exists j :: 0 <= j < k && q[j] == r[i]
    {
      assert r[i] == q[if i < at then i else i + 1];
    }
    if k' > 0 {
      assert r[0] == q[if 0 < at then 0 else 1];
      assert at == 0 ==> q[1].prio >= q[k].prio;
    }
  }

  lemma UnlinkKeepsPlace<T>(s: Queue<T>, who: T, k: nat) returns (k': nat)
    requires Inv(s) && k < |s.entries| && s.entries[k].who in Members(Unlinked(s, who).entries)
    ensures OnlyOvertakenByHigher(s, Unlinked(s, who), k, k')
  {
    UnlinkedMembers(s, who);
    if who in Members(s.entries) {
      var at := WithoutCuts(s.entries, who);
      k' := CutKeepsPlace(s, Unlinked(s, who), at, k);
    } else {
      WithoutAbsent(s.entries, who);
      k' := k;
    }
  }

  lemma StepKeepsPlace<T>(s: Queue<T>, op: Op<T>, k: nat) returns (k': nat)
    requires Inv(s) && Allowed(s, op) && k < |s.entries|
    requires s.entries[k].who in Members(Apply(s, op).entries)
    ensures OnlyOvertakenByHigher(s, Apply(s, op), k, k')
  {
    match op {
      case Link(who, prio) =>
        var e := Entry(who, prio, s.tickets);
        var at := InsertedIsInsertion(s.entries, e);
        k' := InsertionKeepsPlace(s, e, Apply(s, op), at, k);
      case Unlink(who) =>
        k' := UnlinkKeepsPlace(s, who, k);
      case NotifyOne =>
        PopKeepsInv(s);
        k' := CutKeepsPlace(s, Apply(s, op), 0, k);
      case NotifyAll =>
        k' := k;
    }
  }

  /** What may leave the queue ahead of the waiter at index k of the queue s. */
  ghost predicate MayPrecede<T>(s: Queue<T>, k: nat, e: Entry<T>, first: bool)
    requires k < |s.entries|
  {
    var w := s.entries[k];
    || e.prio > w.prio
    || (e.prio == w.prio && e.ticket <= w.ticket)
    || (e.prio < w.prio && first && e == s.entries[0])
  }

  lemma FrontMayPrecede<T>(s: Queue<T>, k: nat)
    requires Inv(s) && k < |s.entries|
    ensures forall i :: 0 <= i <= k ==> MayPrecede(s, k, s.entries[i], i == 0)
  {
  }

  /**
    Bounded priority inversion over whole runs: while w is linked, whatever calls follow, every
    released entry has a higher priority, or the same priority and an earlier ticket, except that
    the very first release may be the entry that was the head at the start.
  */
  lemma {:induction false} BoundedInversion<T>(s: Queue<T>, ops: seq<Op<T>>, k: nat)
    requires Inv(s) && CanRun(s, ops) && k < |s.entries|
    ensures forall i :: 0 <= i < |ReleasedUntil(s, ops, s.entries[k].who)| ==>
      MayPrecede(s, k, ReleasedUntil(s, ops, s.entries[k].who)[i], i == 0)
    decreases |ops|
  {
    var w := s.entries[k];
    if ops != [] {
      var op, s' := ops[0], Apply(s, ops[0]);
      FrontMayPrecede(s, k);
      ApplyKeepsInv(s, op);
      var rest := ReleasedUntil(s', ops[1..], w.who);
      if w.who in Members(s'.entries) {
        var k' := StepKeepsPlace(s, op, k);
        BoundedInversion(s', ops[1..], k');
        if op.NotifyOne? {
          HeadGone(s, k, k', rest);
        }
      } else {
        assert rest == [];
      }
    }
  }

  /** After the first release the exception for the head is used up. */
  lemma HeadGone<T>(s: Queue<T>, k: nat, k': nat, rest: seq<Entry<T>>)
    requires Inv(s) && k < |s.entries|
    requires OnlyOvertakenByHigher(s, Popped(s), k, k')
    requires forall i :: 0 <= i < |rest| ==> MayPrecede(Popped(s), k', rest[i], i == 0)
    ensures forall i :: 0 <= i < |rest| ==> MayPrecede(s, k, rest[i], false)
  {
    if |rest| > 0 {
      var q := s.entries;
      assert MayPrecede(Popped(s), k', rest[0], true);
      assert rest[0].prio < q[k].prio ==> k' == 0 || k > 0;
    }
  }

  /** These calls release an entry of lower priority before the waiter at index k, which stays linked until then. */
  ghost predicate Inverts<T>(s: Queue<T>, ops: seq<Op<T>>, k: nat)
    requires k < |s.entries|
  {
    CanRun(s, ops) && exists e :: e in ReleasedUntil(s, ops, s.entries[k].who) && e.prio < s.entries[k].prio
  }

  /** Release in priority order can fail for a linked waiter if and only if the head has a lower priority than the waiter. */
  lemma InversionIsDecidedByTheHead<T>(s: Queue<T>, k: nat)
    requires Inv(s) && k < |s.entries|
    ensures (exists ops :: Inverts(s, ops, k)) <==> s.entries[0].prio < s.entries[k].prio
  {
    forall ops | Inverts(s, ops, k) ensures s.entries[0].prio < s.entries[k].prio {
      BoundedInversion(s, ops, k);
      var released := ReleasedUntil(s, ops, s.entries[k].who);
      var i :| 0 <= i < |released| && released[i].prio < s.entries[k].prio;
      assert MayPrecede(s, k, released[i], i == 0);
    }
    if s.entries[0].prio < s.entries[k].prio {
      var ops: seq<Op<T>> := [NotifyOne];
      assert CanRun(Popped(s), ops[1..]);
      assert ReleasedUntil(s, ops, s.entries[k].who) == [s.entries[0]];
      assert Inverts(s, ops, k);
    }
  }

  /** The bound is attained: a low-priority head is released before a later high-priority waiter. */
  lemma InversionHappens()
    ensures var s := Run(Queue([], 0), [Link(7, 1), Link(8, 5)]);
      Inv(s) && ReleasedUntil(s, [NotifyOne, NotifyOne], 8) == [Entry(7, 1, 0), Entry(8, 5, 1)]
  {
    var s0: Queue<int> := Queue([], 0);
    var s1 := Apply(s0, Link(7, 1));
    var s2 := Apply(s1, Link(8, 5));
    assert s1.entries == [Entry(7, 1, 0)];
    assert s2.entries == [Entry(7, 1, 0), Entry(8, 5, 1)];
    assert [Link(7, 1), Link(8, 5)][1..] == [Link(8, 5)];
    assert Run(s1, [Link(8, 5)]) == Run(s2, [Link(8, 5)][1..]) == s2;
    var s3 := Apply(s2, NotifyOne);
    assert s3.entries == [Entry(8, 5, 1)];
    assert s2.entries[1].who == 8 && s3.entries[0].who == 8;
    var ops: seq<Op<int>> := [NotifyOne, NotifyOne];
    assert ops[1..] == [NotifyOne];
    var s4 := Apply(s3, NotifyOne);
    assert ReleasedUntil(s3, ops[1..], 8) == [s3.entries[0]] + ReleasedUntil(s4, ops[1..][1..], 8);
  }
}
