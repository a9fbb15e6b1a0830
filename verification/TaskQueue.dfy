/**
The intrusive wait queue of src/_cmsis_rtos/_tq.cpp on the heap. The word m_v of
a waiter packs a next pointer with two tag bits (bit 0: notified, bit 1:
detached). The SVC functions are serialised, so a compare-and-exchange fails
only if the expected value is wrong, not because of another thread.
*/
module TaskQueue {
  import opened QueueOrder

  datatype Word = Word(next: Waiter?, notified: bool, detached: bool)

  class Waiter {
    var v: Word        // m_v
    var prio: int      // m_p
    var tokens: nat    // m_s, the private semaphore

    constructor ()
      ensures Unused()
    {
      v := Word(null, false, false);
      prio := 0;
      tokens := 0;
    }

    /** Neither linked nor popped so far. */
    predicate Unused()
      reads this
    {
      v == Word(null, false, false) && tokens == 0
    }
  }

  /** The waiter at index i of a queue, or null behind its end. */
  function NodeAt(es: seq<Entry<Waiter>>, i: nat): Waiter? {
    if i < |es| then es[i].who else null
  }

  /** Following next from h visits exactly the entries es; linked waiters carry no tag and no token. */
  ghost predicate Chain(h: Waiter?, es: seq<Entry<Waiter>>)
    reads Members(es)
  {
    && h == NodeAt(es, 0)
    && (forall i :: 0 <= i < |es| ==> LinkedAt(es, i))
  }

  ghost predicate LinkedAt(es: seq<Entry<Waiter>>, i: nat)
    requires i < |es|
    reads es[i].who
  {
    var n := es[i].who;
    n.v == Word(NodeAt(es, i + 1), false, false) && n.prio == es[i].prio && n.tokens == 0
  }

  ghost predicate Detached(ws: set<Waiter>)
    reads ws
  {
    forall n :: n in ws ==> n.v.detached
  }

  /** The waiter at index i after its notification; its next pointer is left as it was. */
  ghost predicate PostedAt(es: seq<Entry<Waiter>>, i: nat)
    requires i < |es|
    reads es[i].who
  {
    es[i].who.v == Word(NodeAt(es, i + 1), true, true) && es[i].who.tokens == 1
  }

  class WaitQueue {
    var head: Waiter?  // m_h
    ghost var q: Queue<Waiter>
    ghost var waiters: set<Waiter>   // every waiter that was ever linked

    ghost function Nodes(): set<Waiter>
      reads this
    {
      Members(q.entries)
    }

    /** The list is the chain from the head, and of all waiters ever linked it holds the ones without the detached bit. */
    ghost predicate Valid()
      reads this, Nodes(), waiters
    {
      Inv(q) && Chain(head, q.entries) && Nodes() <= waiters && Detached(waiters - Nodes())
    }

    /** Of the waiters ever linked, exactly the ones whose detached bit is clear are on the list. */
    lemma UndetachedAreLinked(t: Waiter)
      requires Valid() && t in waiters
      ensures t in Nodes() <==> !t.v.detached
    {
      if t in Nodes() {
        var i :| 0 <= i < |q.entries| && q.entries[i].who == t;
        assert LinkedAt(q.entries, i);
      }
    }

    constructor ()
      ensures Valid() && q == Queue([], 0) && waiters == {}
    {
      waiters := {};
      head := null;
      q := Queue([], 0);
    }

    /** compare_exchange on m_h: stores desired if expected is there, and returns what was there. */
    method ExchangeHead(expected: Waiter?, desired: Waiter?) returns (seen: Waiter?)
      modifies this`head
      ensures seen == old(head)
      ensures head == if seen == expected then desired else seen
    {
      seen := head;
      if seen == expected {
        head := desired;
      }
    }

    /**
      The walk of weos_tq_link: stops at the last node whose successors do not all have to stay in
      front. The restart on a detached node never happens.
    */
    method FindPredecessor(first: Waiter, priority: int) returns (i: Waiter, ghost k: nat)
      requires Chain(head, q.entries) && head == first
      ensures k < |q.entries| && i == q.entries[k].who
      ensures InsertAt(q.entries, priority, 1) == k + 1
    {
      i, k := first, 0;
      assert LinkedAt(q.entries, 0);
      var next := i.v.next;
      while next != null && next.prio >= priority
        invariant k < |q.entries| && i == q.entries[k].who && next == NodeAt(q.entries, k + 1)
        invariant InsertAt(q.entries, priority, 1) == InsertAt(q.entries, priority, k + 1)
        decreases |q.entries| - k
      {
        assert LinkedAt(q.entries, k) && LinkedAt(q.entries, k + 1);
        if i.v.detached {
          assert false;
        }
        i := next;
        k := k + 1;
        next := i.v.next;
      }
      assert k + 1 < |q.entries| ==> LinkedAt(q.entries, k + 1);
    }

    /** The two stores of weos_tq_link behind the node i, which has index k. */
    method Splice(i: Waiter, t: Waiter, ghost k: nat)
      requires Chain(head, q.entries) && Distinct(q.entries) && t !in Nodes() && t.Unused()
      requires k < |q.entries| && i == q.entries[k].who && InsertAt(q.entries, t.prio, 1) == k + 1
      modifies i`v, t`v
      ensures Chain(head, Linked(q, t, t.prio).entries)
      ensures !t.v.notified && !t.v.detached
    {
      ghost var es := q.entries;
      ghost var r := Linked(q, t, t.prio).entries;
      assert LinkedAt(es, k);
      t.v := t.v.(next := i.v.next);
      i.v := i.v.(next := t);
      forall j | 0 <= j < |r| ensures LinkedAt(r, j) {
        if j <= k {
          assert old(LinkedAt(es, j)) && r[j] == es[j];
        } else if j > k + 1 {
          assert old(LinkedAt(es, j - 1)) && r[j] == es[j - 1];
        }
      }
    }

    /** weos_tq_link: returns 1 without touching the queue if the kernel reports no priority. */
    method Link(t: Waiter, priority: int, priorityError: bool) returns (status: int)
      requires Valid() && t !in waiters && t.Unused()
      modifies this, t, Nodes()
      ensures Valid()
      ensures status == if priorityError then 1 else 0
      ensures q == if priorityError then old(q) else Linked(old(q), t, priority)
      ensures !priorityError ==> q == Apply(old(q), Op.Link(t, priority))
      ensures waiters == if priorityError then old(waiters) else old(waiters) + {t}
      ensures t.tokens == 0 && !t.v.notified && !t.v.detached && t.prio == priority
    {
      t.prio := priority;
      if priorityError {
        return 1;
      }
      Enqueue(t);
      return 0;
    }

    /** The rest of weos_tq_link once the priority is known. */
    method Enqueue(t: Waiter)
      requires Valid() && t !in waiters && t.Unused()
      modifies this, t`v, Nodes()`v
      ensures Valid() && q == Linked(old(q), t, t.prio) && waiters == old(waiters) + {t}
      ensures !t.v.notified && !t.v.detached
    {
      ghost var off := waiters - Nodes();
      Insert(t);
      assert Detached(off);
      LinkKeepsInv(q, t, t.prio);
      LinkedMembers(q, t, t.prio);
      q := Linked(q, t, t.prio);
      waiters := waiters + {t};
      assert waiters - Nodes() == off;
    }

    /** The outer loop of weos_tq_link: t becomes the head of an empty list or goes behind a linked node. */
    method Insert(t: Waiter)
      requires Chain(head, q.entries) && Distinct(q.entries) && t !in Nodes() && t.Unused()
      modifies this`head, Nodes()`v, t`v
      ensures Chain(head, Linked(q, t, t.prio).entries)
      ensures !t.v.notified && !t.v.detached
    {
      var i := ExchangeHead(null, t);
      if i == null {
        assert LinkedAt(Linked(q, t, t.prio).entries, 0);
      } else {
        ghost var k;
        i, k := FindPredecessor(i, t.prio);
        Splice(i, t, k);
      }
    }

    /** The walk of weos_tq_unlink behind a head that is not t. */
    method FindLinkTo(first: Waiter, t: Waiter) returns (i: Waiter, ghost k: nat)
      requires Chain(head, q.entries) && head == first && first != t
      ensures k < |q.entries| && i == q.entries[k].who
      ensures if i.v.next == t then k + 1 < |q.entries| && q.entries[k + 1].who == t else t !in Nodes()
    {
      i, k := first, 0;
      assert LinkedAt(q.entries, 0);
      while i.v.next != null && i.v.next != t
        invariant k < |q.entries| && i == q.entries[k].who && LinkedAt(q.entries, k)
        invariant forall j :: 0 <= j <= k ==> q.entries[j].who != t
        decreases |q.entries| - k
      {
        assert LinkedAt(q.entries, k + 1);
        i := i.v.next;
        k := k + 1;
      }
    }

    /** Takes t, which is linked behind the node i, out of the chain. */
    method Bypass(i: Waiter, t: Waiter, ghost k: nat)
      requires Chain(head, q.entries) && Distinct(q.entries)
      requires k + 1 < |q.entries| && i == q.entries[k].who && t == q.entries[k + 1].who
      modifies i`v, t`v
      ensures Chain(head, Unlinked(q, t).entries)
      ensures t.v == old(t.v).(detached := true)
    {
      ghost var es := q.entries;
      ghost var at := WithoutCuts(es, t);
      ghost var r := Unlinked(q, t).entries;
      assert LinkedAt(es, k) && LinkedAt(es, k + 1);
      i.v := i.v.(next := t.v.next);
      t.v := t.v.(detached := true);
      forall j | 0 <= j < |r| ensures LinkedAt(r, j) {
        assert old(LinkedAt(es, if j <= k then j else j + 1));
      }
    }

    /** The first exchange of weos_tq_unlink: t was the head. */
    method BypassHead(t: Waiter, next: Waiter?)
      requires Chain(t, q.entries) && Distinct(q.entries) && next == t.v.next && head == next
      modifies t`v
      ensures Chain(head, Unlinked(q, t).entries)
      ensures t.v == old(t.v).(detached := true)
    {
      ghost var es := q.entries;
      ghost var at := WithoutCuts(es, t);
      ghost var r := Unlinked(q, t).entries;
      assert LinkedAt(es, 0);
      t.v := t.v.(detached := true);
      forall j | 0 <= j < |r| ensures LinkedAt(r, j) {
        assert old(LinkedAt(es, j + 1));
      }
    }

    /** t is not on the queue: only its tag changes. */
    method MarkAbsent(t: Waiter)
      requires Chain(head, q.entries) && t !in Nodes()
      modifies t`v
      ensures Chain(head, Unlinked(q, t).entries)
      ensures t.v == old(t.v).(detached := true)
    {
      WithoutAbsent(q.entries, t);
      t.v := t.v.(detached := true);
      assert forall j :: 0 <= j < |q.entries| ==> old(LinkedAt(q.entries, j)) ==> LinkedAt(q.entries, j);
    }

    /**
      weos_tq_unlink: removes t if it is still there and marks it detached in any case. It also
      accepts a waiter that was popped before the call, whose next pointer is stale.
    */
    method Unlink(t: Waiter)
      requires Valid()
      modifies this, t, Nodes()
      ensures Valid() && q == Unlinked(old(q), t) == Apply(old(q), Op.Unlink(t)) && waiters == old(waiters)
      ensures t.v == old(t.v).(detached := true)
      ensures t.tokens == old(t.tokens)
    {
      UnlinkKeepsInv(q, t);
      UnlinkedMembers(q, t);
      ghost var off := waiters - Nodes();
      Remove(t);
      q := Unlinked(q, t);
      assert Detached(off) && waiters - Nodes() <= off + {t};
    }

    /** The body of weos_tq_unlink. */
    method Remove(t: Waiter)
      requires Chain(head, q.entries) && Distinct(q.entries)
      modifies this`head, Nodes()`v, t`v
      ensures Chain(head, Unlinked(q, t).entries)
      ensures t.v == old(t.v).(detached := true)
    {
      var tn := t.v.next;
      var i := ExchangeHead(t, tn);
      if i == t {
        BypassHead(t, tn);
      } else if i == null {
        MarkAbsent(t);
      } else {
        ghost var k;
        i, k := FindLinkTo(i, t);
        if i.v.next == t {
          Bypass(i, t, k);
        } else {
          MarkAbsent(t);
        }
      }
    }

    /** weos_tq_notify with a_ == 0: pops the head, tags it and posts its semaphore once. */
    method NotifyOne()
      requires Valid()
      modifies this, Nodes()
      ensures Valid() && q == Popped(old(q)) == Apply(old(q), Op.NotifyOne) && waiters == old(waiters)
      ensures forall n :: n in old(Nodes()) && n != old(head) ==> n.v == old(n.v) && n.tokens == 0
      ensures old(head) != null ==> var h := old(head); h.v == Word(old(h.v).next, true, true) && h.tokens == 1
    {
      PopKeepsInv(q);
      var i := head;
      if i == null {
        return;
      }
      forall n | n in Nodes() ensures n.tokens == 0 {
        var j :| 0 <= j < |q.entries| && q.entries[j].who == n;
        assert LinkedAt(q.entries, j);
      }
      var iv := i.v;
      var seen := ExchangeHead(i, iv.next);
      PostHead(i, iv);
      q := Popped(q);
    }

    /** The tags and the post for a head i that has just been taken off. */
    method PostHead(i: Waiter, iv: Word)
      requires Chain(i, q.entries) && Distinct(q.entries) && iv == i.v && head == iv.next
      modifies i
      ensures i.v == iv.(notified := true, detached := true) && i.tokens == 1
      ensures Chain(head, Popped(q).entries)
    {
      ghost var es := q.entries;
      assert LinkedAt(es, 0);
      i.v := iv.(notified := true, detached := true);
      i.tokens := i.tokens + 1;
      forall j | 0 <= j < |es[1..]| ensures LinkedAt(es[1..], j) {
        assert old(LinkedAt(es, j + 1));
      }
    }

    /** weos_tq_notify with a_ != 0: takes the whole list and posts every waiter on it exactly once. */
    method NotifyAll()
      requires Valid()
      modifies this, Nodes()
      ensures Valid() && q == old(q).(entries := []) == Apply(old(q), Op.NotifyAll) && waiters == old(waiters)
      ensures forall n :: n in old(Nodes()) ==> n.tokens == 1 && n.v == old(n.v).(notified := true, detached := true)
    {
      var i := head;
      head := null;
      ghost var es := q.entries;
      assert Distinct(es);
      ghost var off := waiters - Nodes();
      q := q.(entries := []);
      PostAll(i, es);
      forall n: Waiter | n in Members(es) ensures n.tokens == 1 && n.v == old(n.v).(notified := true, detached := true) {
        var j :| 0 <= j < |es| && es[j].who == n;
        assert PostedAt(es, j) && old(LinkedAt(es, j));
      }
      assert waiters - Nodes() == off + Members(es);
    }

    /** The posting loop over the list that was taken off. */
    static method PostAll(first: Waiter?, ghost es: seq<Entry<Waiter>>)
      requires Chain(first, es) && Distinct(es)
      modifies Members(es)
      ensures forall j :: 0 <= j < |es| ==> PostedAt(es, j)
    {
      var i := first;
      ghost var k := 0;
      while i != null
        invariant 0 <= k <= |es| && i == NodeAt(es, k)
        invariant forall j :: 0 <= j < k ==> PostedAt(es, j)
        invariant forall j :: k <= j < |es| ==> LinkedAt(es, j)
        decreases |es| - k
      {
        assert LinkedAt(es, k);
        var iv := i.v;
        i.v := iv.(notified := true, detached := true);
        i.tokens := i.tokens + 1;
        i := iv.next;
        k := k + 1;
      }
    }

    /** _t::unlink: tells whether t was popped by a notification; afterwards t is off the queue for good. */
    method Leave(t: Waiter) returns (notified: bool)
      requires Valid()
      modifies this, t, Nodes()
      ensures Valid() && q == Unlinked(old(q), t) && waiters == old(waiters)
      ensures t.v == old(t.v).(detached := true) && t.tokens == old(t.tokens)
      ensures notified == old(t.v.notified)
    {
      if t.v.detached {
        assert forall j :: 0 <= j < |q.entries| && q.entries[j].who == t ==> LinkedAt(q.entries, j);
        WithoutAbsent(q.entries, t);
        return t.v.notified;
      }
      Unlink(t);
      return t.v.notified;
    }
  }
}
