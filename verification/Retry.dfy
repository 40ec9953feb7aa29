// MAKE_TUPLE stores the element words it read before the collection
// (mb_vm.c:540-552); CONS reads its registers again (mb_vm.c:613-615).
module Retry {
  import opened Term
  import opened Graph
  import opened Cheney
  import opened Collector
  import opened HeapModel
  import opened Commands
  import opened Bytecode
  import opened Machine
  import opened Refinement

  // A retry that finds room builds the tuple from the words read before.
  lemma RetriedWith(p: Proc, dst: nat, elems: seq<nat>, h: HeapValue, regs: seq<Word>)
    requires !HasRoom(p.heap, 1 + |elems|) && HasRoom(h, 1 + |elems|) && dst < |regs|
    requires HeapModel.Collect(p.heap, p.regs) == Collected(h, regs)
    ensures var ws := ElemWords(p.regs, elems);
            DoMakeTuple(p, dst, elems) ==
              Did(p.(heap := Place(h, [TupleHeader(|ws|)] + ws), regs := regs[dst := MakeBoxed(h.hp)]), Ok)
  {
  }

  // The words from at on are those of the given registers.
  ghost predicate Spells(words: seq<Word>, at: nat, elems: seq<nat>, regs: seq<Word>) {
    && at + |elems| <= |words|
    && forall i :: 0 <= i < |elems| ==> elems[i] < |regs| && words[at + i] == regs[elems[i]]
  }

  lemma RetriedHolds(p: Proc, dst: nat, elems: seq<nat>, h: HeapValue, regs: seq<Word>)
    requires !HasRoom(p.heap, 1 + |elems|) && HasRoom(h, 1 + |elems|) && dst < |regs|
    requires HeapModel.Collect(p.heap, p.regs) == Collected(h, regs)
    requires forall i :: 0 <= i < |elems| ==> elems[i] < |p.regs|
    ensures var r := DoMakeTuple(p, dst, elems);
            && r.Did? && r.status.Ok? && |r.p.regs| == |regs|
            && r.p.regs[dst] == MakeBoxed(h.hp) && Spells(r.p.heap.from, h.hp + 1, elems, p.regs)
  {
    RetriedWith(p, dst, elems, h, regs);
    var ws := ElemWords(p.regs, elems);
    forall i | 0 <= i < |elems|
      ensures Place(h, [TupleHeader(|ws|)] + ws).from[h.hp + 1 + i] == p.regs[elems[i]]
    {
      assert Place(h, [TupleHeader(|ws|)] + ws).from[h.hp + (1 + i)] == ([TupleHeader(|ws|)] + ws)[1 + i];
    }
  }

  // The tuple built after a collection holds what its registers hold iff the
  // object of every pointer element lands where it lies.
  lemma MakeTupleRetryExact(p: Proc, objs: Objects, dst: nat, elems: seq<nat>)
    requires SafeWith(p, objs) && dst < REG_COUNT && |elems| <= 16
    requires forall i :: 0 <= i < |elems| ==> elems[i] < REG_COUNT
    requires !HasRoom(p.heap, 1 + |elems|)
    requires Roomy(|p.heap.from|, objs, SnapshotOf(p, objs).Live())
    requires SnapshotOf(p, objs).LiveSize() + 1 + |elems| <= |p.heap.from|
    ensures var c := HeapModel.Collect(p.heap, p.regs);
            var r := DoMakeTuple(p, dst, elems);
            && c.Collected? && r.Did? && r.status.Ok? && |c.roots| == REG_COUNT
            && r.p.regs[dst] == MakeBoxed(c.heap.hp) && c.heap.hp + 1 + |elems| <= |r.p.heap.from|
            && (Spells(r.p.heap.from, c.heap.hp + 1, elems, c.roots) <==> ElementsStay(p, objs, elems))
  {
    var h, regs := RegistersStay(p, objs);
    RetriedHolds(p, dst, elems, h, regs);
    RetriedAgrees(p, objs, elems, regs, DoMakeTuple(p, dst, elems).p.heap.from, h.hp + 1);
  }

  // The words read before agree with the registers after iff they stay put.
  lemma RetriedAgrees(p: Proc, objs: Objects, elems: seq<nat>, regs: seq<Word>, words: seq<Word>, at: nat)
    requires |p.regs| == |regs| == REG_COUNT && Spells(words, at, elems, p.regs)
    requires forall r: nat :: r < REG_COUNT ==> (regs[r] == p.regs[r] <==> StaysPut(p, objs, r))
    ensures Spells(words, at, elems, regs) <==> ElementsStay(p, objs, elems)
  {
    forall i | 0 <= i < |elems|
      ensures words[at + i] == regs[elems[i]] <==> StaysPut(p, objs, elems[i])
    {
      assert elems[i] < REG_COUNT;
    }
  }

  // ---- a program for which the retry goes wrong ----

  // r0 := [r1 | r1] twice, which fills a heap of four words, the first cell
  // being garbage; then r1 := {r0}.
  function StaleProgram(): seq<Byte> { [0x52, 0, 1, 1, 0x52, 0, 1, 1, 0x50, 1, 1, 0] }

  // The process after k of the three instructions, from the start.  In the
  // end r0 holds the cell, moved from offset 2 to offset 0, but the tuple
  // still says 2, which is now the tuple itself.
  function HeapAfter(k: nat): HeapValue {
    if k <= 2 then HeapValue(Zeros(4), Zeros(4), 2 * k, 0) else HeapValue([0, 0, 64, 0x21], Zeros(4), 4, 1)
  }

  function RegsAfter(k: nat): seq<Word> {
    if k == 0 then Zeros(REG_COUNT)
    else if k == 1 then [0x1] + Zeros(15)
    else if k == 2 then [0x21] + Zeros(15)
    else [0x1, 0x22] + Zeros(14)
  }

  ghost predicate After(p: Proc, k: nat) {
    && p.regs == RegsAfter(k) && p.heap == HeapAfter(k)
    && p.c.program == StaleProgram() && p.c.pc == 4 * k && !p.c.halted && p.c.state.Ready?
  }

  lemma StaleConses(p: Proc, k: nat)
    requires k < 2 && p.regs == RegsAfter(k) && p.heap == HeapAfter(k)
    ensures DoCons(p, 0, 1, 1) == Did(p.(heap := HeapAfter(k + 1), regs := RegsAfter(k + 1)), Ok)
  {
    assert Place(p.heap, [0, 0]).from == Zeros(4);
    assert p.regs[0 := MakeCons(2 * k)] == RegsAfter(k + 1);
  }

  lemma {:induction false} ZeroRootsStay(g: Gc, roots: seq<Word>, i: nat)
    requires i <= |roots| && forall j :: i <= j < |roots| ==> roots[j] == 0
    ensures CopyRoots(g, roots, i) == Swept(g, roots)
    decreases |roots| - i
  {
    if i < |roots| {
      assert roots[i := 0] == roots;
      ZeroRootsStay(g, roots, i + 1);
    }
  }

  lemma StaleCollected()
    ensures HeapModel.Collect(HeapAfter(2), RegsAfter(2)) ==
            Collected(HeapValue(Zeros(4), Zeros(4), 2, 1), [0x1] + Zeros(15))
  {
    var g0, g1 := Gc(Zeros(4), Zeros(4), 0), Gc([0, 0, MOVED, 0], Zeros(4), 2);
    assert Forward(g0, 2, 2).new_ == Zeros(4);
    assert Forward(g0, 2, 2) == g1;
    assert CopyTerm(g0, 0x21) == Copied(g1, 0x1);
    var roots := [0x1] + Zeros(15);
    assert RegsAfter(2)[0 := 0x1] == roots;
    ZeroRootsStay(g1, roots, 1);
    assert CopyRoots(g0, RegsAfter(2), 0) == Swept(g1, roots);
    StaleScan(g1);
  }

  // The copied cell reads as two empty tuples.
  lemma StaleScan(g: Gc)
    requires g.new_ == Zeros(4) && g.hp == 2
    ensures Scan(g, 0) == Copied(g, 0)
  {
    assert ScanRound(g, 0) == Round.Next(g, 1) && ScanRound(g, 1) == Round.Next(g, 2);
    assert Scan(g, 2) == Copied(g, 0);
    assert Scan(g, 1) == Copied(g, 0);
  }

  lemma StalePlaced(h: HeapValue, regs: seq<Word>)
    requires h == HeapValue(Zeros(4), Zeros(4), 2, 1) && regs == RegsAfter(2)
    ensures Place(h, [TupleHeader(1)] + ElemWords(regs, [0])) == HeapAfter(3)
    ensures ([0x1] + Zeros(15))[1 := MakeBoxed(2)] == RegsAfter(3)
  {
    assert [TupleHeader(1)] + ElemWords(regs, [0]) == [64, 0x21];
    assert Place(h, [64, 0x21]).from == [0, 0, 64, 0x21];
  }

  lemma StaleTuple(p: Proc)
    requires p.regs == RegsAfter(2) && p.heap == HeapAfter(2)
    ensures DoMakeTuple(p, 1, [0]) == Did(p.(heap := HeapAfter(3), regs := RegsAfter(3)), Ok)
  {
    StaleCollected();
    var h := HeapValue(Zeros(4), Zeros(4), 2, 1);
    RetriedWith(p, 1, [0], h, [0x1] + Zeros(15));
    StalePlaced(h, p.regs);
  }

  lemma StaleDecodes(k: nat)
    requires k <= 3
    ensures Decode(StaleProgram(), 4 * k) ==
              if k < 2 then Decoded(Instr.Cons(0, 1, 1), 4 * k + 4)
              else if k == 2 then Decoded(Instr.MakeTuple(1, [0]), 12)
              else Fault(Eof, 12)
  {
    var prog := StaleProgram();
    if k < 2 {
      assert prog[4 * k + 1..4 * k + 4] == [0, 1, 1];
    } else if k == 2 {
      assert FetchRegisters(prog, 12, 0) == Registers([], 12);
      assert FetchRegisters(prog, 11, 1) == Registers([0], 12);
    }
  }

  function Afterwards(p: Proc, k: nat): Proc {
    p.(c := p.c.(pc := 4 * k), heap := HeapAfter(k), regs := RegsAfter(k))
  }

  lemma StaleConsStep(p: Proc, k: nat, io: Io)
    requires k < 2 && After(p, k)
    ensures Step(p, io) == Did(Afterwards(p, k + 1), Ok)
  {
    StaleDecodes(k);
    StaleConses(p.(c := p.c.(pc := 4 * k + 4)), k);
  }

  lemma StaleTupleStep(p: Proc, io: Io)
    requires After(p, 2)
    ensures Step(p, io) == Did(Afterwards(p, 3), Ok)
  {
    StaleDecodes(2);
    StaleTuple(p.(c := p.c.(pc := 12)));
  }

  // The program leads there in three steps.
  lemma StaleStep(p: Proc, k: nat, io: Io)
    requires k < 3 && After(p, k)
    ensures Step(p, io) == Did(Afterwards(p, k + 1), Ok) && After(Afterwards(p, k + 1), k + 1)
  {
    if k < 2 {
      StaleConsStep(p, k, io);
    } else {
      StaleTupleStep(p, io);
    }
  }

  // No description of the heap makes the process well formed after that: the
  // tuple at 2 would be its own element, under the tag of a list cell.
  lemma StaleTupleIsUnsafe(p: Proc, objs: Objects)
    requires p.regs == RegsAfter(3) && p.heap == HeapAfter(3)
    ensures !SafeWith(p, objs)
  {
    var tuple, element := p.regs[1], p.heap.from[3];
    assert IsBoxed(tuple) && Offset(tuple) == 2 && IsCons(element) && Offset(element) == 2;
    var _ := HasHeader(p.heap.from, objs, 2);
    var _ := IsField(objs, 2, 3);
  }
}
