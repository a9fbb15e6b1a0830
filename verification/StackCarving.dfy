/**
How thread creation carves the shared state block and the thread stack out of one
memory region: std::align, max_align and offset_by on 32 bit addresses, and the checks
of thread::create and thread::do_create. Alignments are powers of two, given by their
exponent.
*/
module StackCarving {
  import opened Arith
  import opened Words

  /** alignment_of<long double> is 8, and the smallest and largest stack sizes. */
  const MAX_ALIGN_EXPONENT: nat := 3
  const MINIMUM_STACK: nat := 64
  const STACK_LIMIT: nat := 0x100_0000
  const NULL: Word := 0

  /** (address + (alignment - 1)) & -alignment */
  function AlignedAddress(address: Word, k: nat): Word
    requires k < 32
  {
    PowerBelowTwo32(k);
    Masked((address + (Pow2(k) - 1)) % TWO32, Pow2(k))
  }

  /** aligned_address - address */
  function Padding(address: Word, k: nat): Word
    requires k < 32
  {
    (AlignedAddress(address, k) - address) % TWO32
  }

  /** The address is a multiple of 2^k, by halving. */
  predicate IsAligned(address: nat, k: nat) {
    k == 0 || (address % 2 == 0 && IsAligned(address / 2, k - 1))
  }

  lemma {:induction false} AlignedMeansMultiple(address: nat, k: nat)
    ensures IsAligned(address, k) <==> address % Pow2(k) == 0
  {
    if k > 0 {
      AlignedMeansMultiple(address / 2, k - 1);
      ModTwice(address, Pow2(k - 1));
    }
  }

  lemma TwiceReduced(x: nat, a: nat, c: nat)
    requires a > 0 && c * a == TWO32
    ensures x % TWO32 % a == x % a
  {
    var i, r := x / TWO32, x % TWO32;
    var j, s := r / a, r % a;
    assert x == i * TWO32 + r && r == j * a + s;
    assert i * (c * a) == i * c * a;
    DivUnique(x, a, i * c + j, s);
  }

  /** The least multiple of 2^k that is not below the address, by halving. */
  function RoundUp(address: nat, k: nat): (u: nat)
    ensures address <= u
  {
    if k == 0 then address else 2 * RoundUp((address + 1) / 2, k - 1)
  }

  /** Rounding up is adding 2^k - 1 and rounding down. */
  lemma {:induction false} RoundUpByRemainder(address: nat, k: nat)
    ensures var x := address + (Pow2(k) - 1); RoundUp(address, k) == x - x % Pow2(k)
  {
    if k > 0 {
      RoundUpByRemainder((address + 1) / 2, k - 1);
      RoundUpStep(address, Pow2(k - 1));
    }
  }

  lemma RoundUpStep(address: nat, p: nat)
    requires p > 0
    ensures var x, y := address + (2 * p - 1), (address + 1) / 2 + (p - 1);
      x - x % (2 * p) == 2 * (y - y % p)
  {
    var x := address + (2 * p - 1);
    ModTwice(x, p);
    assert x / 2 == (address + 1) / 2 + (p - 1);
  }

  lemma {:induction false} RoundUpBounds(address: nat, k: nat)
    ensures IsAligned(RoundUp(address, k), k) && address <= RoundUp(address, k) < address + Pow2(k)
  {
    if k > 0 {
      RoundUpBounds((address + 1) / 2, k - 1);
      var u := RoundUp((address + 1) / 2, k - 1);
      assert 2 * u % 2 == 0 && 2 * u / 2 == u;
    }
  }

  lemma {:induction false} RoundUpIsLeast(address: nat, k: nat, y: nat)
    requires address <= y && IsAligned(y, k)
    ensures RoundUp(address, k) <= y
    decreases k
  {
    if k > 0 { RoundUpIsLeast((address + 1) / 2, k - 1, y / 2); }
  }

  lemma RemainderFits(y: nat, a: nat)
    requires a > 0
    ensures y % a <= y && y % a < a
  {
  }

  lemma WrapOnce(x: int)
    requires 0 <= x + TWO32 < 3 * TWO32
    ensures x % TWO32 == if x < 0 then x + TWO32 else if x < TWO32 then x else x - TWO32
  {
  }

  /** Rounding down the 32 bit sum is rounding down the real sum, modulo 2^32. */
  lemma WrappedRounding(address: Word, a: nat, c: nat, u: nat)
    requires 0 < a < TWO32 && c * a == TWO32 && address <= u < address + a
    requires var x := address + (a - 1); u == x - x % a
    ensures var y := (address + (a - 1)) % TWO32; y - y % a == u % TWO32
    ensures (u % TWO32 - address) % TWO32 == u - address
  {
    var x := address + (a - 1);
    TwiceReduced(x, a, c);
    RemainderFits(x % TWO32, a);
    WrappedDifference(address, u, x, x % a);
  }

  lemma WrappedDifference(address: Word, u: nat, x: nat, m: nat)
    requires address <= u <= x < 2 * TWO32 && u == x - m && m <= x % TWO32 && u - address < TWO32
    ensures x % TWO32 - m == u % TWO32
    ensures (u % TWO32 - address) % TWO32 == u - address
  {
    WrapOnce(x);
    WrapOnce(u);
    WrapOnce(u % TWO32 - address);
  }

  lemma MaskRoundsUpWrapped(address: Word, k: nat, a: nat)
    requires k < 32 && a == Pow2(k)
    ensures var x := address + (a - 1); AlignedAddress(address, k) == x % TWO32 - x % TWO32 % a
  {
    PowerBelowTwo32(k);
    MaskRoundsDown((address + (a - 1)) % TWO32, k);
  }

  /** In 32 bit arithmetic the mask expression is the rounded-up address and the padding is exact. */
  lemma MaskRoundsUp(address: Word, k: nat)
    requires k < 32
    ensures AlignedAddress(address, k) == RoundUp(address, k) % TWO32
    ensures Padding(address, k) == RoundUp(address, k) - address
  {
    PowerBelowTwo32(k);
    var a := Pow2(k);
    var c := PowerDivides(k, 32);
    assert c * a == TWO32 by { Powers(); }
    var u := RoundUp(address, k);
    assert address <= u < address + a && u == address + (a - 1) - (address + (a - 1)) % a by {
      RoundUpByRemainder(address, k);
      RoundUpBounds(address, k);
    }
    WrappedRounding(address, a, c, u);
    MaskRoundsUpWrapped(address, k, a);
  }

  /** The mask expression is the least multiple of the alignment from the address on, modulo 2^32. */
  lemma MaskIsLeastMultiple(address: Word, k: nat, y: nat)
    requires k < 32 && address <= y && y % Pow2(k) == 0
    ensures AlignedAddress(address, k) % Pow2(k) == 0
    ensures Padding(address, k) < Pow2(k) && Padding(address, k) <= y - address
  {
    MaskRoundsUp(address, k);
    RoundUpBounds(address, k);
    AlignedMeansMultiple(y, k);
    RoundUpIsLeast(address, k, y);
    WrapKeepsAlignment(RoundUp(address, k), k);
  }

  lemma WrapKeepsAlignment(u: nat, k: nat)
    requires k < 32 && IsAligned(u, k)
    ensures u % TWO32 % Pow2(k) == 0
  {
    var c := PowerDivides(k, 32);
    assert c * Pow2(k) == TWO32 by { Powers(); }
    TwiceReduced(u, Pow2(k), c);
    AlignedMeansMultiple(u, k);
  }

  /** The first three statements of std::align and of max_align. */
  method Aligned(address: Word, k: nat) returns (alignedAddress: Word, diff: Word)
    requires k < 32
    ensures alignedAddress == RoundUp(address, k) % TWO32 && diff == RoundUp(address, k) - address
  {
    MaskRoundsUp(address, k);
    alignedAddress := AlignedAddress(address, k);
    diff := (alignedAddress - address) % TWO32;
  }

  /** thread_attributes and the working copy ThreadProperties; the region ends at limit. */
  class ThreadProperties {
    const initialStackBase: Word
    var stackBegin: Word
    var stackSize: Word

    constructor (base: Word, size: Word)
      ensures initialStackBase == stackBegin == base && stackSize == size
    {
      initialStackBase := base;
      stackBegin := base;
      stackSize := size;
    }

    /** Where the region ends; a region does not wrap around the address space. */
    function End(): int
      reads this
    {
      stackBegin + stackSize
    }

    /**
      std::align(alignment, size, m_stackBegin, m_stackSize): the new begin, or null. The sum
      size + diff is a 32 bit sum.
    */
    method Align(k: nat, size: Word) returns (ptr: Word)
      requires k < 32
      modifies this
      ensures var u, pad := RoundUp(old(stackBegin), k), RoundUp(old(stackBegin), k) - old(stackBegin);
        if (size + pad) % TWO32 <= old(stackSize)
        then ptr == stackBegin == u % TWO32 && stackSize == (old(stackSize) - pad) % TWO32
        else ptr == NULL && stackBegin == old(stackBegin) && stackSize == old(stackSize)
    {
      var alignedAddress, diff := Aligned(stackBegin, k);
      if stackSize >= (size + diff) % TWO32 {
        stackSize := (stackSize - diff) % TWO32;
        stackBegin := alignedAddress;
        return stackBegin;
      }
      return NULL;
    }

    /** max_align: aligns the rest of the region for any object. */
    method MaxAlign() returns (ptr: Word)
      modifies this
      ensures var u := RoundUp(old(stackBegin), MAX_ALIGN_EXPONENT);
        if u <= old(End())
        then ptr == stackBegin == u % TWO32 && stackSize == old(End()) - u
        else ptr == NULL && stackBegin == old(stackBegin) && stackSize == old(stackSize)
    {
      var alignedAddress, diff := Aligned(stackBegin, MAX_ALIGN_EXPONENT);
      if stackSize >= diff {
        stackSize := stackSize - diff;
        stackBegin := alignedAddress;
        return stackBegin;
      }
      return NULL;
    }

    method OffsetBy(size: Word)
      modifies this
      ensures stackBegin == (old(stackBegin) + size) % TWO32 && stackSize == (old(stackSize) - size) % TWO32
    {
      stackBegin := (stackBegin + size) % TWO32;
      stackSize := (stackSize - size) % TWO32;
    }

    /** thread_info::get_stack_size from the values recorded in the shared state. */
    function StackSize(): Word
      reads this
    {
      (stackBegin + stackSize - initialStackBase) % TWO32
    }
  }

  /** An aligned request fits a region if the real sum does, which the code decides with the 32 bit sum. */
  predicate Fits(address: Word, space: Word, k: nat, size: Word)
    requires k < 32
  {
    size + Padding(address, k) <= space
  }

  /** The exact condition for the decision of std::align to be right: the 32 bit sum does not wrap, or its wrapped value is refused anyway. */
  lemma AlignDecision(address: Word, space: Word, k: nat, size: Word)
    requires k < 32
    ensures var sum := size + Padding(address, k);
      ((sum % TWO32 <= space) <==> Fits(address, space, k, size)) <==> (sum < TWO32 || space < sum - TWO32)
  {
    WrapOnce(size + Padding(address, k));
  }

  /** A wrapped request that is accepted although it does not fit. */
  lemma AlignCanOverflow()
    ensures Padding(1, 2) == 3
    ensures (TWO32 - 1 + Padding(1, 2)) % TWO32 <= 10 && !Fits(1, 10, 2, TWO32 - 1)
  {
    MaskRoundsUp(1, 2);
    assert RoundUp(1, 2) == 4;
  }

  datatype Carving =
    | Carved(block: Word)
    | NotEnoughMemory
    | InvalidStackSize

  /** What a successful carving promises about a region [base, base + length). */
  ghost predicate WellCarved(base: Word, length: Word, k: nat, size: Word, block: Word, stack: Word, stackSize: Word) {
    && IsAligned(block, k) && IsAligned(stack, MAX_ALIGN_EXPONENT)
    && base <= block && block + size <= stack && stack + stackSize == base + length
    && MINIMUM_STACK <= stackSize < STACK_LIMIT
  }

  /** The bytes in front of the stack: padding, state block, padding. */
  function Overhead(base: Word, k: nat, size: Word): nat
    requires k < 32
  {
    RoundUp(RoundUp(base, k) + size, MAX_ALIGN_EXPONENT) - base
  }

  lemma EndOfMemory()
    ensures RoundUp(0, MAX_ALIGN_EXPONENT) == 0
    ensures RoundUp(TWO32, MAX_ALIGN_EXPONENT) == TWO32
  {
  }

  /** Without a wrap of the sum, the 32 bit test and the 32 bit differences are the real ones. */
  lemma InsideTheSpace(begin: Word, space: Word, u: nat, size: Word)
    requires 0 < begin <= u && 0 < size && begin + space <= TWO32 && u - begin + size < TWO32
    ensures (size + (u - begin)) % TWO32 == size + (u - begin)
    ensures u + size <= begin + space ==> u % TWO32 == u
    ensures u + size <= begin + space ==> (space - (u - begin)) % TWO32 == space - (u - begin)
    ensures u + size <= begin + space ==> (space - (u - begin) - size) % TWO32 == space - (u - begin) - size
  {
  }

  /** thread::create: aligns the region for the state and steps over it; u is the real aligned address. */
  method PlaceState(props: ThreadProperties, k: nat, size: Word, ghost u: nat) returns (block: Word)
    requires k < 32 && 0 < size && 0 < props.stackBegin && props.End() <= TWO32
    requires u == RoundUp(props.stackBegin, k) && u - props.stackBegin + size < TWO32
    modifies props
    ensures u + size <= old(props.End()) ==> block == u && props.stackBegin == (u + size) % TWO32
    ensures u + size <= old(props.End()) ==> props.stackSize == old(props.End()) - (u + size)
    ensures u + size > old(props.End()) ==>
      block == NULL && props.stackBegin == old(props.stackBegin) && props.stackSize == old(props.stackSize)
  {
    ghost var begin, space := props.stackBegin, props.stackSize;
    InsideTheSpace(begin, space, u, size);
    block := props.Align(k, size);
    if block != NULL {
      props.OffsetBy(size);
    }
  }

  /** thread::do_create: aligns what is left for the stack and checks its size; e is the real address of the rest. */
  method PlaceStack(props: ThreadProperties, block: Word, ghost e: nat) returns (r: Carving)
    requires props.stackBegin == e % TWO32 && 0 < e && e + props.stackSize <= TWO32
    modifies props
    ensures var u, end := RoundUp(e, MAX_ALIGN_EXPONENT), e + old(props.stackSize);
      && (r.NotEnoughMemory? <==> u > end || u == TWO32)
      && (r.Carved? <==> MINIMUM_STACK <= end - u < STACK_LIMIT)
      && (r.Carved? ==> r.block == block && props.stackBegin == u && props.stackSize == end - u)
  {
    EndOfMemory();
    WrapOnce(e);
    var ptr := props.MaxAlign();
    if ptr == NULL {
      return NotEnoughMemory;
    }
    if props.stackSize < MINIMUM_STACK || props.stackSize >= STACK_LIMIT {
      return InvalidStackSize;
    }
    return Carved(block);
  }

  /**
    The two together, up to the start of the thread. The state type has a real size and alignment, so
    their sum is at most 2^32; the region has a non-null base and lies within the address space.
  */
  method Carve(props: ThreadProperties, k: nat, size: Word) returns (r: Carving)
    requires k < 32 && size > 0 && size + Pow2(k) <= TWO32
    requires 0 < props.initialStackBase == props.stackBegin && props.End() <= TWO32
    modifies props
    ensures r.Carved? ==>
      WellCarved(props.initialStackBase, old(props.stackSize), k, size, r.block, props.stackBegin, props.stackSize)
    ensures r.Carved? ==> props.StackSize() == old(props.stackSize)
    ensures var rest := old(props.stackSize) - Overhead(props.initialStackBase, k, size);
      && (r.Carved? <==> MINIMUM_STACK <= rest < STACK_LIMIT)
      && (r.NotEnoughMemory? <==> rest < 0 || (rest == 0 && old(props.End()) == TWO32))
  {
    ghost var u := RoundUp(props.stackBegin, k);
    assert IsAligned(u, k) && props.stackBegin <= u && u - props.stackBegin + size < TWO32 by {
      RoundUpBounds(props.stackBegin, k);
    }
    assert IsAligned(RoundUp(u + size, MAX_ALIGN_EXPONENT), MAX_ALIGN_EXPONENT) by {
      RoundUpBounds(u + size, MAX_ALIGN_EXPONENT);
    }
    var block := PlaceState(props, k, size, u);
    if block == NULL {
      return NotEnoughMemory;
    }
    r := PlaceStack(props, block, u + size);
  }
}
