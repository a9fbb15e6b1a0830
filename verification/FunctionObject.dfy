/**
The storage of function<>: a small callable lives in a buffer inside the function object,
a large one in a heap block. Copy, move, assignment, swap and destruction construct,
destroy and hand over these callables. The class Memory is history only: it records which
cells hold a live callable, which of them are heap blocks, and who owns each.
*/
module FunctionObject {

  type Target = int

  /** What a function object holds. */
  datatype Holding = Empty | Small(target: Target) | Large(target: Target)

  /** Raw memory for one invoker: the buffer of a function object, a heap block or a temporary. */
  class Cell {
    var target: Target

    constructor (target: Target)
      ensures this.target == target
    {
      this.target := target;
    }
  }

  class Memory {
    ghost var functions: set<Function>
    ghost var live: set<Cell>
    ghost var blocks: set<Cell>
    ghost var owner: map<Cell, Function>

    constructor ()
      ensures Valid() && functions == {} && live == {} && blocks == {}
    {
      functions, live, blocks, owner := {}, {}, {}, map[];
    }

    /** m_invoker is null, the own buffer, or a heap block, and the own buffer is used for nothing else. */
    ghost predicate Owns(f: Function)
      reads this, f
    {
      && f.storage !in blocks
      && (f.storage in live ==> f.invoker == f.storage)
      && (f.invoker != null ==> f.invoker in owner && owner[f.invoker] == f)
    }

    /**
      Every live callable is the one of exactly one function object, and every heap block holds a live
      callable: nothing leaks and nothing is shared.
    */
    ghost predicate Valid()
      reads this, functions
    {
      && live == owner.Keys && blocks <= live
      && (forall f :: f in functions ==> Owns(f))
      && (forall f, g :: f in functions && g in functions && f != g ==> f.storage != g.storage)
      && (forall c :: c in owner ==> owner[c] in functions && owner[c].invoker == c)
      && (forall c :: c in owner ==> (c in blocks <==> c != owner[c].storage))
    }

    /** Invoker::clone(address): copy-constructs into raw memory. */
    method Clone(src: Cell, dst: Cell)
      requires src in live && dst !in live
      modifies `live, dst
      ensures live == old(live) + {dst} && dst.target == old(src.target)
    {
      dst.target := src.target;
      live := live + {dst};
    }

    /** Invoker::clone(): copy-constructs into a new heap block. */
    method CloneToHeap(src: Cell) returns (block: Cell)
      requires src in live
      modifies `live, `blocks
      ensures fresh(block) && block.target == src.target
      ensures live == old(live) + {block} && blocks == old(blocks) + {block}
    {
      block := new Cell(src.target);
      live, blocks := live + {block}, blocks + {block};
    }

    method Destroy(c: Cell)
      requires c in live && c !in blocks
      modifies `live
      ensures live == old(live) - {c}
    {
      live := live - {c};
    }

    method DestroyAndDeallocate(c: Cell)
      requires c in live && c in blocks
      modifies `live, `blocks
      ensures live == old(live) - {c} && blocks == old(blocks) - {c}
    {
      live, blocks := live - {c}, blocks - {c};
    }
  }

  /** As many callables are alive as function objects have a target; after the last one is gone nothing is left. */
  lemma NothingLeaks(m: Memory)
    requires m.Valid()
    ensures |m.live| == |set f | f in m.functions && f.invoker != null|
    ensures m.functions == {} ==> m.live == {} && m.blocks == {}
  {
    forall f | f in m.functions && f.invoker != null ensures f in m.owner.Values {
      assert m.Owns(f);
    }
    assert (set f | f in m.functions && f.invoker != null) == m.owner.Values;
    OneKeyPerValue(m.owner);
  }

  lemma {:induction false} OneKeyPerValue<K, V>(o: map<K, V>)
    requires forall c, d :: c in o && d in o && o[c] == o[d] ==> c == d
    ensures |o.Keys| == |o.Values|
    decreases |o.Keys|
  {
    if o.Keys == {} {
      assert o.Values == {};
    } else {
      var c :| c in o.Keys;
      var rest := o - {c};
      OneKeyPerValue(rest);
      assert rest.Keys == o.Keys - {c};
      forall v | v in o.Values && v != o[c] ensures v in rest.Values {
        var d :| d in o && o[d] == v;
        assert d in rest && rest[d] == v;
      }
      assert rest.Values == o.Values - {o[c]};
    }
  }

  class Function {
    const storage: Cell
    var invoker: Cell?

    ghost function Holds(): Holding
      reads this, invoker
    {
      if invoker == null then Empty else if invoker == storage then Small(invoker.target) else Large(invoker.target)
    }

    /** function(), function(nullptr) */
    constructor Null(m: Memory)
      requires m.Valid()
      modifies m
      ensures m.Valid() && m.functions == old(m.functions) + {this} && fresh(storage) && Holds() == Empty
      ensures m.live == old(m.live)
    {
      storage := new Cell(0);
      invoker := null;
      new;
      m.functions := m.functions + {this};
    }

    /** function(f): a null function pointer gives an empty object; in place only if it fits and copies without throwing. */
    constructor Of(m: Memory, target: Target, notNull: bool, inPlace: bool)
      requires m.Valid()
      modifies m
      ensures m.Valid() && m.functions == old(m.functions) + {this} && fresh(storage)
      ensures Holds() == if !notNull then Empty else if inPlace then Small(target) else Large(target)
      ensures m.live == old(m.live) + (if invoker == null then {} else {invoker})
    {
      storage := new Cell(target);
      invoker := null;
      new;
      m.functions := m.functions + {this};
      if notNull {
        Emplace(m, target, inPlace);
      }
    }

    /** Constructs the invoker in the buffer or in a new block. */
    method Emplace(m: Memory, target: Target, inPlace: bool)
      requires m.Valid() && this in m.functions && invoker == null
      modifies this, storage, m
      ensures m.Valid() && m.functions == old(m.functions)
      ensures Holds() == if inPlace then Small(target) else Large(target)
      ensures invoker != null && m.live == old(m.live) + {invoker}
    {
      if inPlace {
        invoker := storage;
        storage.target := target;
        m.live := m.live + {storage};
      } else {
        invoker := new Cell(target);
        m.live, m.blocks := m.live + {invoker}, m.blocks + {invoker};
      }
      m.owner := m.owner[invoker := this];
    }

    /** function(const function&): a callable of its own, in the same kind of place. */
    constructor Copy(m: Memory, other: Function)
      requires m.Valid() && other in m.functions
      modifies m
      ensures m.Valid() && m.functions == old(m.functions) + {this} && fresh(storage)
      ensures Holds() == old(other.Holds())
      ensures m.live == old(m.live) + (if invoker == null then {} else {invoker})
    {
      storage := new Cell(0);
      invoker := null;
      new;
      m.functions := m.functions + {this};
      if other.invoker != null {
        CloneFrom(m, other);
      }
    }

    method CloneFrom(m: Memory, other: Function)
      requires m.Valid() && this in m.functions && other in m.functions
      requires invoker == null && other.invoker != null
      modifies this, storage, m
      ensures m.Valid() && m.functions == old(m.functions)
      ensures Holds() == old(other.Holds())
      ensures invoker != null && m.live == old(m.live) + {invoker}
    {
      if other.invoker == other.storage {
        invoker := storage;
        m.Clone(other.invoker, storage);
      } else {
        invoker := m.CloneToHeap(other.invoker);
      }
      m.owner := m.owner[invoker := this];
    }

    /** function(function&&): a large callable changes its owner, a small one is copied and stays with the source as well. */
    constructor Move(m: Memory, other: Function)
      requires m.Valid() && other in m.functions
      modifies m, other
      ensures m.Valid() && m.functions == old(m.functions) + {this} && fresh(storage)
      ensures Holds() == old(other.Holds())
      ensures other.Holds() == if old(other.Holds()).Large? then Empty else old(other.Holds())
      ensures m.live == old(m.live) + (if Holds().Small? then {invoker} else {})
    {
      storage := new Cell(0);
      invoker := null;
      new;
      m.functions := m.functions + {this};
      TakeFrom(m, other);
    }

    /** The common part of move construction and move assignment, for an empty receiver. */
    method TakeFrom(m: Memory, other: Function)
      requires m.Valid() && this in m.functions && other in m.functions && invoker == null
      modifies this, storage, other, m
      ensures m.Valid() && m.functions == old(m.functions)
      ensures Holds() == if this == other then Empty else old(other.Holds())
      ensures this != other ==> other.Holds() == if old(other.Holds()).Large? then Empty else old(other.Holds())
      ensures m.live == old(m.live) + (if Holds().Small? then {invoker} else {})
    {
      if other.invoker == other.storage {
        invoker := storage;
        m.Clone(other.invoker, storage);
        m.owner := m.owner[storage := this];
      } else {
        invoker := other.invoker;
        other.invoker := null;
        if invoker != null { m.owner := m.owner[invoker := this]; }
      }
    }

    /** release(): destroys the callable, if any, and frees its block. */
    method Release(m: Memory)
      requires m.Valid() && this in m.functions
      modifies this, m
      ensures m.Valid() && m.functions == old(m.functions) && Holds() == Empty
      ensures m.live == if old(invoker) == null then old(m.live) else old(m.live) - {old(invoker)}
    {
      if invoker == storage {
        m.Destroy(storage);
      } else if invoker != null {
        m.DestroyAndDeallocate(invoker);
      }
      if invoker != null { m.owner := m.owner - {invoker}; }
      invoker := null;
    }

    /** ~function() */
    method Destruct(m: Memory)
      requires m.Valid() && this in m.functions
      modifies this, m
      ensures m.Valid() && m.functions == old(m.functions) - {this}
      ensures m.live == if old(invoker) == null then old(m.live) else old(m.live) - {old(invoker)}
    {
      Release(m);
      m.functions := m.functions - {this};
    }

    /** Move assignment; moving an object onto itself empties it. */
    method MoveAssign(m: Memory, other: Function)
      requires m.Valid() && this in m.functions && other in m.functions
      modifies this, storage, other, m
      ensures m.Valid() && m.functions == old(m.functions)
      ensures this == other ==> Holds() == Empty
      ensures this != other ==> Holds() == old(other.Holds())
      ensures this != other ==> other.Holds() == if old(other.Holds()).Large? then Empty else old(other.Holds())
      ensures forall f :: f in m.functions && f != this && f != other ==> f.Holds() == old(f.Holds())
    {
      Release(m);
      TakeFrom(m, other);
    }

    /** Exchanges the targets in every combination of empty, small and large, and with itself. */
    method Swap(m: Memory, other: Function)
      requires m.Valid() && this in m.functions && other in m.functions
      modifies this, storage, other, other.storage, m
      ensures m.Valid() && m.functions == old(m.functions)
      ensures Holds() == old(other.Holds()) && other.Holds() == old(Holds())
      ensures m.blocks == old(m.blocks)
      ensures forall f :: f in m.functions && f != this && f != other ==> f.Holds() == old(f.Holds())
    {
      if this == other {
        return;
      }
      if invoker == storage && other.invoker == other.storage {
        SwapBuffers(m, other);
      } else if other.invoker == other.storage {
        SwapWithSmall(m, other);
      } else if invoker == storage {
        other.SwapWithSmall(m, this);
      } else {
        SwapInvokers(m, other);
      }
    }

    /** Both are small: by way of a temporary. */
    method SwapBuffers(m: Memory, other: Function)
      requires m.Valid() && this in m.functions && other in m.functions && this != other
      requires invoker == storage && other.invoker == other.storage
      modifies storage, other.storage, m
      ensures m.Valid() && m.functions == old(m.functions) && m.blocks == old(m.blocks)
      ensures storage.target == old(other.storage.target) && other.storage.target == old(storage.target)
    {
      var temp := new Cell(0);
      m.Clone(invoker, temp);
      m.Destroy(invoker);
      m.Clone(other.invoker, storage);
      m.Destroy(other.invoker);
      m.Clone(temp, other.storage);
      m.Destroy(temp);
      assert m.live == old(m.live);
    }

    /** Only the other one is small: its callable moves into the free buffer. */
    method SwapWithSmall(m: Memory, other: Function)
      requires m.Valid() && this in m.functions && other in m.functions
      requires invoker != storage && other.invoker == other.storage
      modifies this, storage, other, m
      ensures m.Valid() && m.functions == old(m.functions) && m.blocks == old(m.blocks)
      ensures Holds() == old(other.Holds()) && other.Holds() == old(Holds())
    {
      m.Clone(other.invoker, storage);
      m.Destroy(other.invoker);
      other.invoker := invoker;
      invoker := storage;
      m.owner := (m.owner - {other.storage})[storage := this];
      if other.invoker != null { m.owner := m.owner[other.invoker := other]; }
    }

    /** Both are large or empty. */
    method SwapInvokers(m: Memory, other: Function)
      requires m.Valid() && this in m.functions && other in m.functions && this != other
      requires invoker != storage && other.invoker != other.storage
      modifies this, other, m
      ensures m.Valid() && m.functions == old(m.functions) && m.blocks == old(m.blocks)
      ensures invoker == old(other.invoker) && other.invoker == old(invoker)
      ensures invoker != storage && other.invoker != other.storage
    {
      invoker, other.invoker := other.invoker, invoker;
      if invoker != null { m.owner := m.owner[invoker := this]; }
      if other.invoker != null { m.owner := m.owner[other.invoker := other]; }
    }

    /** The end of every assignment through a temporary: temporary.swap(*this), then its destructor. */
    method Replace(m: Memory, temporary: Function)
      requires m.Valid() && this in m.functions && temporary in m.functions && temporary != this
      modifies this, storage, temporary, temporary.storage, m
      ensures m.Valid() && m.functions == old(m.functions) - {temporary}
      ensures Holds() == old(temporary.Holds())
      ensures forall f :: f in m.functions && f != this ==> f.Holds() == old(f.Holds())
    {
      temporary.Swap(m, this);
      temporary.Destruct(m);
    }

    /** Copy assignment by copy and swap, also from itself. */
    method CopyAssign(m: Memory, other: Function)
      requires m.Valid() && this in m.functions && other in m.functions
      modifies this, storage, m
      ensures m.Valid() && m.functions == old(m.functions)
      ensures Holds() == old(other.Holds())
      ensures forall f :: f in m.functions && f != this ==> f.Holds() == old(f.Holds())
    {
      var copy := new Function.Copy(m, other);
      Replace(m, copy);
    }

    /** Assignment of a callable. */
    method AssignCallable(m: Memory, target: Target, notNull: bool, inPlace: bool)
      requires m.Valid() && this in m.functions
      modifies this, storage, m
      ensures m.Valid() && m.functions == old(m.functions)
      ensures Holds() == if !notNull then Empty else if inPlace then Small(target) else Large(target)
      ensures forall f :: f in m.functions && f != this ==> f.Holds() == old(f.Holds())
    {
      var made := new Function.Of(m, target, notNull, inPlace);
      Replace(m, made);
    }
  }
}
