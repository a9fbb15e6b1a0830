/**
Any sequence of operations on any number of function<> objects, against values: a list of
what the objects hold. The objects on the heap follow the values, so no copy shares its
callable with another object, and the callables alive are exactly the ones held.
*/
module FunctionRun {
  import opened FunctionObject

  datatype Op =
    | Construct(target: Target, notNull: bool, inPlace: bool)
    | CopyConstruct(from: nat)
    | MoveConstruct(from: nat)
    | CopyAssign(to: nat, from: nat)
    | MoveAssign(to: nat, from: nat)
    | AssignCallable(to: nat, target: Target, notNull: bool, inPlace: bool)
    | Swap(to: nat, from: nat)
    | Clear(to: nat)
    | Destroy(to: nat)

  predicate Allowed(n: nat, op: Op) {
    && (op.CopyConstruct? || op.MoveConstruct? || op.CopyAssign? || op.MoveAssign? || op.Swap? ==> op.from < n)
    && (op.CopyAssign? || op.MoveAssign? || op.AssignCallable? || op.Swap? || op.Clear? || op.Destroy? ==> op.to < n)
  }

  function Made(target: Target, notNull: bool, inPlace: bool): Holding {
    if !notNull then Empty else if inPlace then Small(target) else Large(target)
  }

  /** What is left behind by a move: a small callable stays. */
  function LeftBehind(h: Holding): Holding {
    if h.Large? then Empty else h
  }

  function Effect(c: seq<Holding>, op: Op): seq<Holding>
    requires Allowed(|c|, op)
  {
    match op
    case Construct(target, notNull, inPlace) => c + [Made(target, notNull, inPlace)]
    case CopyConstruct(j) => c + [c[j]]
    case MoveConstruct(j) => c[j := LeftBehind(c[j])] + [c[j]]
    case CopyAssign(i, j) => c[i := c[j]]
    case MoveAssign(i, j) => if i == j then c[i := Empty] else c[i := c[j]][j := LeftBehind(c[j])]
    case AssignCallable(i, target, notNull, inPlace) => c[i := Made(target, notNull, inPlace)]
    case Swap(i, j) => c[i := c[j]][j := c[i]]
    case Clear(i) => c[i := Empty]
    case Destroy(i) => c[..i] + c[i + 1..]
  }

  predicate CanRun(c: seq<Holding>, ops: seq<Op>)
    decreases |ops|
  {
    ops == [] || (Allowed(|c|, ops[0]) && CanRun(Effect(c, ops[0]), ops[1..]))
  }

  function Run(c: seq<Holding>, ops: seq<Op>): seq<Holding>
    requires CanRun(c, ops)
    decreases |ops|
  {
    if ops == [] then c else Run(Effect(c, ops[0]), ops[1..])
  }

  function Targets(c: seq<Holding>): nat {
    if c == [] then 0 else (if c[0].Empty? then 0 else 1) + Targets(c[1..])
  }

  ghost predicate Distinct(fs: seq<Function>) {
    forall i, j :: 0 <= i < j < |fs| ==> fs[i] != fs[j]
  }

  ghost function Objects(fs: seq<Function>): set<Function> {
    set f | f in fs
  }

  ghost function Buffers(fs: seq<Function>): set<Cell> {
    set f | f in fs :: f.storage
  }

  /** The objects of the world are the ones in the list. */
  ghost predicate World(m: Memory, fs: seq<Function>)
    reads m, m.functions
  {
    m.Valid() && Distinct(fs) && m.functions == Objects(fs)
  }

  ghost predicate Shows(fs: seq<Function>, c: seq<Holding>)
    reads fs, set f | f in fs :: f.invoker
  {
    |c| == |fs| && (forall i :: 0 <= i < |fs| ==> fs[i].Holds() == c[i])
  }

  method Construction(m: Memory, fs: seq<Function>, ghost c: seq<Holding>, op: Op) returns (r: seq<Function>)
    requires World(m, fs) && Shows(fs, c) && Allowed(|fs|, op) && (op.Construct? || op.CopyConstruct?)
    modifies m
    ensures World(m, r) && Shows(r, Effect(c, op))
    ensures forall f :: f in r ==> f in fs || (fresh(f) && fresh(f.storage))
  {
    var f: Function;
    if op.Construct? {
      f := new Function.Of(m, op.target, op.notNull, op.inPlace);
    } else {
      f := new Function.Copy(m, fs[op.from]);
    }
    r := fs + [f];
  }

  method MoveConstruction(m: Memory, fs: seq<Function>, ghost c: seq<Holding>, from: nat) returns (r: seq<Function>)
    requires World(m, fs) && Shows(fs, c) && from < |fs|
    modifies m, fs
    ensures World(m, r) && Shows(r, Effect(c, MoveConstruct(from)))
    ensures forall f :: f in r ==> f in fs || (fresh(f) && fresh(f.storage))
  {
    var f := new Function.Move(m, fs[from]);
    r := fs + [f];
  }

  method Assignment(m: Memory, fs: seq<Function>, ghost c: seq<Holding>, op: Op)
    requires World(m, fs) && Shows(fs, c) && Allowed(|fs|, op)
    requires op.CopyAssign? || op.AssignCallable? || op.Clear?
    modifies m, fs, Buffers(fs)
    ensures World(m, fs) && Shows(fs, Effect(c, op))
  {
    var f := fs[op.to];
    if op.CopyAssign? {
      f.CopyAssign(m, fs[op.from]);
    } else if op.AssignCallable? {
      f.AssignCallable(m, op.target, op.notNull, op.inPlace);
    } else {
      f.Release(m);
    }
  }

  method Transfer(m: Memory, fs: seq<Function>, ghost c: seq<Holding>, op: Op)
    requires World(m, fs) && Shows(fs, c) && Allowed(|fs|, op) && (op.MoveAssign? || op.Swap?)
    modifies m, fs, Buffers(fs)
    ensures World(m, fs) && Shows(fs, Effect(c, op))
  {
    if op.MoveAssign? {
      fs[op.to].MoveAssign(m, fs[op.from]);
    } else {
      fs[op.to].Swap(m, fs[op.from]);
    }
  }

  method Destruction(m: Memory, fs: seq<Function>, ghost c: seq<Holding>, to: nat) returns (r: seq<Function>)
    requires World(m, fs) && Shows(fs, c) && to < |fs|
    modifies m, fs
    ensures World(m, r) && Shows(r, Effect(c, Destroy(to)))
    ensures forall f :: f in r ==> f in fs
  {
    RemovedObjects(fs, to);
    fs[to].Destruct(m);
    r := fs[..to] + fs[to + 1..];
    ghost var c' := Effect(c, Destroy(to));
    forall i | 0 <= i < |r| ensures r[i].Holds() == c'[i] {
      assert r[i] == fs[if i < to then i else i + 1];
    }
  }

  lemma RemovedObjects(fs: seq<Function>, to: nat)
    requires Distinct(fs) && to < |fs|
    ensures var r := fs[..to] + fs[to + 1..]; Distinct(r) && Objects(r) == Objects(fs) - {fs[to]}
    ensures forall f :: f in fs[..to] + fs[to + 1..] ==> f in fs && f != fs[to]
  {
    var r := fs[..to] + fs[to + 1..];
    forall f | f in fs && f != fs[to] ensures f in r {
      var i :| 0 <= i < |fs| && fs[i] == f;
      assert r[if i < to then i else i - 1] == f;
    }
  }

  method PerformOne(m: Memory, fs: seq<Function>, ghost c: seq<Holding>, op: Op) returns (r: seq<Function>)
    requires World(m, fs) && Shows(fs, c) && Allowed(|fs|, op)
    modifies m, fs, Buffers(fs)
    ensures World(m, r) && Shows(r, Effect(c, op))
    ensures forall f :: f in r ==> f in fs || (fresh(f) && fresh(f.storage))
  {
    if op.Construct? || op.CopyConstruct? {
      r := Construction(m, fs, c, op);
    } else if op.MoveConstruct? {
      r := MoveConstruction(m, fs, c, op.from);
    } else if op.Destroy? {
      r := Destruction(m, fs, c, op.to);
    } else {
      if op.MoveAssign? || op.Swap? { Transfer(m, fs, c, op); } else { Assignment(m, fs, c, op); }
      r := fs;
    }
  }

  /** From no object on, the heap follows the values through any sequence of operations, and exactly the targets held are alive. */
  method Perform(ops: seq<Op>) returns (m: Memory, fs: seq<Function>)
    requires CanRun([], ops)
    ensures World(m, fs) && Shows(fs, Run([], ops))
    ensures |m.live| == Targets(Run([], ops))
    ensures Run([], ops) == [] ==> m.live == {} && m.blocks == {}
  {
    m := new Memory();
    fs := [];
    ghost var c: seq<Holding> := [];
    var n := 0;
    while n < |ops|
      invariant n <= |ops| && World(m, fs) && Shows(fs, c)
      invariant fresh(m) && forall f :: f in fs ==> fresh(f) && fresh(f.storage)
      invariant CanRun(c, ops[n..]) && Run(c, ops[n..]) == Run([], ops)
    {
      assert ops[n..][1..] == ops[n + 1..];
      fs := PerformOne(m, fs, c, ops[n]);
      c := Effect(c, ops[n]);
      n := n + 1;
    }
    TargetsAreAlive(m, fs, c);
  }

  lemma TargetsAreAlive(m: Memory, fs: seq<Function>, c: seq<Holding>)
    requires World(m, fs) && Shows(fs, c)
    ensures |m.live| == Targets(c)
    ensures c == [] ==> m.live == {} && m.blocks == {}
  {
    NothingLeaks(m);
    HoldersAreCounted(fs, c);
    assert (set f | f in m.functions && f.invoker != null) == Holders(fs);
  }

  ghost function Holders(fs: seq<Function>): set<Function>
    reads fs
  {
    set f | f in fs && f.invoker != null
  }

  lemma {:induction false} HoldersAreCounted(fs: seq<Function>, c: seq<Holding>)
    requires Distinct(fs) && Shows(fs, c)
    ensures |Holders(fs)| == Targets(c)
  {
    if fs != [] {
      HoldersAreCounted(fs[1..], c[1..]);
      var rest := Holders(fs[1..]);
      assert fs[0] !in rest;
      assert Holders(fs) == if c[0].Empty? then rest else rest + {fs[0]};
    }
  }
}
