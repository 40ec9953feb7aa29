// What the heap instructions do to the data that registers stand for, across
// collections: stated on trees, and as round trips of building and reading.
module Structures {
  import opened Term
  import opened Graph
  import opened Commands
  import opened Bytecode
  import opened Machine
  import opened TreeMachine
  import opened Refinement
  import opened Messages

  // The registers stand for the trees after a successful instruction.
  ghost predicate Yields(r: Outcome, objs: Objects, trees: seq<Tree>) {
    r.Did? && r.status.Ok? && Denoting(r.p, objs, trees)
  }

  // They do, and the instruction failed.
  ghost predicate Refuses(r: Outcome, s: Status, objs: Objects, trees: seq<Tree>) {
    r.Did? && r.status == s && r.p.c.lastError == s && Denoting(r.p, objs, trees)
  }

  ghost predicate HasSpace(p: Proc, objs: Objects, n: nat) {
    SnapshotOf(p, objs).LiveSize() + n <= |p.heap.from|
  }

  // CONS makes a cell of two trees, or refuses when it and the live data
  // exceed the capacity; every other register keeps its tree.
  lemma ConsBuilds(p: Proc, objs: Objects, trees: seq<Tree>, i: Instr, io: Io) returns (objs': Objects)
    requires Denoting(p, objs, trees) && Stands(p, i) && i.Cons? && CollectSafe(p, i)
    ensures if HasSpace(p, objs, 2)
            then Yields(Step(p, io), objs', trees[i.dst := ConsT(trees[i.head], trees[i.tail])])
            else Refuses(Step(p, io), HeapOom, objs', trees)
  {
    assert Next(p) == i;
    objs' := StepRefines(p, objs, trees, io);
  }

  // MAKE_TUPLE makes a tuple of the trees of its operands, in their order.
  lemma TupleBuilds(p: Proc, objs: Objects, trees: seq<Tree>, i: Instr, io: Io) returns (objs': Objects)
    requires Denoting(p, objs, trees) && Stands(p, i) && i.MakeTuple? && CollectSafe(p, i)
    ensures var es := seq(|i.elems|, k requires 0 <= k < |i.elems| => trees[i.elems[k]]);
            if HasSpace(p, objs, 1 + |i.elems|)
            then Yields(Step(p, io), objs', trees[i.dst := TupleT(es)])
            else Refuses(Step(p, io), HeapOom, objs', trees)
  {
    assert Next(p) == i;
    objs' := StepRefines(p, objs, trees, io);
    assert TreesAt(trees, i.elems) == seq(|i.elems|, k requires 0 <= k < |i.elems| => trees[i.elems[k]]);
  }

  // HEAD and TAIL take a cell apart, and refuse everything else.
  lemma CellOpens(p: Proc, objs: Objects, trees: seq<Tree>, i: Instr, io: Io) returns (objs': Objects)
    requires Denoting(p, objs, trees) && Stands(p, i) && (i.Head? || i.Tail?)
    ensures if !trees[i.cell].ConsT? then Refuses(Step(p, io), BadTerm, objs', trees)
            else Yields(Step(p, io), objs', trees[i.dst := if i.Head? then trees[i.cell].head else trees[i.cell].tail])
  {
    assert Next(p) == i;
    objs' := StepRefines(p, objs, trees, io);
  }

  // TUPLE_ELEM takes an element of a tuple, counting from 0.
  lemma ElementOpens(p: Proc, objs: Objects, trees: seq<Tree>, i: Instr, io: Io) returns (objs': Objects)
    requires Denoting(p, objs, trees) && Stands(p, i) && i.TupleElem?
    ensures var v := trees[i.tuple];
            if !v.TupleT? then Refuses(Step(p, io), BadTerm, objs', trees)
            else if i.index >= |v.elems| then Refuses(Step(p, io), BadArity, objs', trees)
            else Yields(Step(p, io), objs', trees[i.dst := v.elems[i.index]])
  {
    assert Next(p) == i;
    objs' := StepRefines(p, objs, trees, io);
  }

  // What CONS put together, HEAD and TAIL give back, even if the CONS had to
  // collect.
  lemma ConsThenOpen(p: Proc, objs: Objects, trees: seq<Tree>, i: Instr, io: Io, j: Instr, io': Io)
      returns (objs': Objects)
    requires Denoting(p, objs, trees) && Stands(p, i) && i.Cons? && CollectSafe(p, i) && HasSpace(p, objs, 2)
    requires Step(p, io).Did? ==> Stands(Step(p, io).p, j)
    requires (j.Head? || j.Tail?) && j.cell == i.dst
    ensures Step(p, io).Did?
    ensures var cell := ConsT(trees[i.head], trees[i.tail]);
            Yields(Step(Step(p, io).p, io'), objs',
              trees[i.dst := cell][j.dst := if j.Head? then trees[i.head] else trees[i.tail]])
  {
    var objs1 := ConsBuilds(p, objs, trees, i, io);
    var cell := ConsT(trees[i.head], trees[i.tail]);
    objs' := CellOpens(Step(p, io).p, objs1, trees[i.dst := cell], j, io');
  }

  // Of what MAKE_TUPLE put together, TUPLE_ELEM gives back each element, and
  // nothing beyond.
  lemma TupleThenOpen(p: Proc, objs: Objects, trees: seq<Tree>, i: Instr, io: Io, j: Instr, io': Io)
      returns (objs': Objects)
    requires Denoting(p, objs, trees) && Stands(p, i) && i.MakeTuple? && CollectSafe(p, i)
    requires HasSpace(p, objs, 1 + |i.elems|)
    requires Step(p, io).Did? ==> Stands(Step(p, io).p, j)
    requires j.TupleElem? && j.tuple == i.dst
    ensures Step(p, io).Did?
    ensures var es := seq(|i.elems|, k requires 0 <= k < |i.elems| => trees[i.elems[k]]);
            if j.index < |i.elems|
            then Yields(Step(Step(p, io).p, io'), objs', trees[i.dst := TupleT(es)][j.dst := trees[i.elems[j.index]]])
            else Refuses(Step(Step(p, io).p, io'), BadArity, objs', trees[i.dst := TupleT(es)])
  {
    var objs1 := TupleBuilds(p, objs, trees, i, io);
    var es := seq(|i.elems|, k requires 0 <= k < |i.elems| => trees[i.elems[k]]);
    objs' := ElementOpens(Step(p, io).p, objs1, trees[i.dst := TupleT(es)], j, io');
  }
}
