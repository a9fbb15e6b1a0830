/**
The singly linked list g_sharedThreadStates of src/_cmsis_rtos/_thread.cpp on the
heap. Its functions run as SVC calls, one at a time.
*/
module ThreadRegistry {
  import opened ThreadLifetime

  class SharedThreadState {
    var next: SharedThreadState?   // m_next

    constructor ()
      ensures next == null
    {
      next := null;
    }
  }

  function StateAt(list: seq<SharedThreadState>, i: nat): SharedThreadState? {
    if i < |list| then list[i] else null
  }

  ghost predicate Chain(h: SharedThreadState?, list: seq<SharedThreadState>)
    reads list
  {
    && h == StateAt(list, 0)
    && (forall i :: 0 <= i < |list| ==> list[i].next == StateAt(list, i + 1))
  }

  /** The states a loop over the list visits whose callback asks to go on, and the one that stops it. */
  function Visited<T>(list: seq<T>, goOn: T -> bool): seq<T> {
    if list == [] then [] else if goOn(list[0]) then [list[0]] + Visited(list[1..], goOn) else [list[0]]
  }

  class Registry {
    var head: SharedThreadState?   // g_sharedThreadStates
    ghost var list: seq<SharedThreadState>

    ghost predicate Valid()
      reads this, list
    {
      NoDuplicates(list) && Chain(head, list)
    }

    constructor ()
      ensures Valid() && list == []
    {
      head := null;
      list := [];
    }

    /** The last two statements of weos_createTask. */
    method Add(state: SharedThreadState)
      requires Valid() && state !in list
      modifies this, state
      ensures Valid() && list == [state] + old(list)
    {
      state.next := head;
      head := state;
      list := [state] + list;
    }

    /** weos_unlinkSharedState; a state that was never listed, because its task was not created, is accepted. */
    method Unlink(state: SharedThreadState)
      requires Valid()
      modifies this, list
      ensures Valid() && list == Delisted(old(list), state)
    {
      DelistedMembers(list, state);
      if head == state {
        head := state.next;
        list := list[1..];
      } else {
        var iter := head;
        ghost var k := 0;
        while iter != null
          invariant 0 <= k <= |list| && iter == StateAt(list, k)
          invariant forall i :: 0 <= i <= k && i < |list| ==> list[i] != state
          invariant Chain(head, list) && list == old(list) && head == old(head)
          decreases |list| - k
        {
          if iter.next == state {
            DelistedShape(list, state, k + 1);
            iter.next := state.next;
            list := list[..k + 1] + list[k + 2..];
            return;
          }
          iter := iter.next;
          k := k + 1;
        }
        DelistedAbsent(list, state);
      }
    }

    /** weos_forEachThread with the callback's answers given as a predicate: visits the list from the front until one answers false. */
    method ForEach(goOn: SharedThreadState -> bool) returns (visited: seq<SharedThreadState>)
      requires Valid()
      ensures visited == Visited(list, goOn)
    {
      visited := [];
      var iter := head;
      while iter != null
        invariant |visited| <= |list| && iter == StateAt(list, |visited|)
        invariant Visited(list, goOn) == visited + Visited(list[|visited|..], goOn)
        decreases |list| - |visited|
      {
        ghost var rest := list[|visited|..];
        assert rest[1..] == list[|visited| + 1..];
        visited := visited + [iter];
        if !goOn(iter) {
          break;
        }
        iter := iter.next;
      }
    }
  }

  /** Removing an absent state changes nothing. */
  lemma {:induction false} DelistedAbsent<T>(list: seq<T>, x: T)
    requires x !in list
    ensures Delisted(list, x) == list
  {
    if list != [] { DelistedAbsent(list[1..], x); }
  }

  /** Removing a state cuts the list at its first place. */
  lemma {:induction false} DelistedShape<T>(list: seq<T>, x: T, k: nat)
    requires k < |list| && list[k] == x && x !in list[..k]
    ensures Delisted(list, x) == list[..k] + list[k + 1..]
  {
    if k > 0 {
      var rest := list[1..];
      assert list[..k] == [list[0]] + rest[..k - 1];
      DelistedShape(rest, x, k - 1);
      assert rest[k..] == list[k + 1..];
    }
  }

  /** A full visit meets every listed state exactly once, in list order. */
  lemma {:induction false} VisitsEveryStateOnce<T>(list: seq<T>, goOn: T -> bool)
    requires NoDuplicates(list)
    ensures Visited(list, goOn) <= list
    ensures NoDuplicates(Visited(list, goOn))
    ensures (forall x :: x in list ==> goOn(x)) ==> Visited(list, goOn) == list
    ensures Visited(list, goOn) != list ==> exists i :: 0 <= i < |Visited(list, goOn)| && !goOn(list[i]) && |Visited(list, goOn)| == i + 1
  {
    if list != [] {
      VisitsEveryStateOnce(list[1..], goOn);
      var v := Visited(list[1..], goOn);
      if goOn(list[0]) {
        assert list == [list[0]] + list[1..];
        if v != list[1..] {
          var i :| 0 <= i < |v| && !goOn(list[1..][i]) && |v| == i + 1;
          assert !goOn(list[i + 1]);
        }
      } else {
        assert !goOn(list[0]) && |Visited(list, goOn)| == 1;
      }
    }
  }
}
