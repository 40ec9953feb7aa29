// The machine on real semi-spaces refines the machine on trees.  With it come
// term safety for arbitrary bytecode and the exact out-of-memory condition.
module Refinement {
  import opened Term
  import opened Graph
  import opened Collector
  import opened Landing
  import opened Preservation
  import opened HeapModel
  import opened Commands
  import opened Mailbox
  import opened Bytecode
  import opened Machine
  import opened TreeMachine

  ghost function SnapshotOf(p: Proc, objs: Objects): Snapshot {
    Snapshot(p.heap.from, p.heap.hp, objs, p.regs)
  }

  // Every register is 0, an immediate, or the offset of an allocated object
  // of the kind its tag says; and so is every field of every object.
  ghost predicate SafeWith(p: Proc, objs: Objects) { p.Shaped() && SnapshotOf(p, objs).Valid() }

  ghost predicate Denoting(p: Proc, objs: Objects, trees: seq<Tree>) {
    && SafeWith(p, objs)
    && |trees| == REG_COUNT
    && forall r :: 0 <= r < REG_COUNT ==> Denotes(p.heap.from, objs, p.regs[r], trees[r])
  }

  // The words an instruction asks the heap for.
  function Need(i: Instr): nat {
    match i
    case MakeTuple(_, elems) => 1 + |elems|
    case Cons(_, _, _) => 2
    case _ => 0
  }

  predicate Collects(p: Proc, i: Instr) { Need(i) > 0 && !HasRoom(p.heap, Need(i)) }

  // If i collects: no live empty tuple has a live neighbour or ends the space.
  ghost predicate CollectRoomy(p: Proc, i: Instr) {
    Collects(p, i) ==> forall objs :: SafeWith(p, objs) ==> Roomy(|p.heap.from|, objs, SnapshotOf(p, objs).Live())
  }

  // A collection leaves register r as it is: it holds no pointer, or one to
  // an object that lands where it lies.
  ghost predicate StaysPut(p: Proc, objs: Objects, r: nat) {
    r < |p.regs| && IsPointer(p.regs[r]) ==> LandsAt(SnapshotOf(p, objs), Offset(p.regs[r])) == Offset(p.regs[r])
  }

  ghost predicate ElementsStay(p: Proc, objs: Objects, elems: seq<nat>) {
    forall k :: 0 <= k < |elems| ==> StaysPut(p, objs, elems[k])
  }

  // If i collects: the heap is roomy, and the words of a tuple, read before
  // the collection, are still right after it.
  ghost predicate CollectSafe(p: Proc, i: Instr) {
    && CollectRoomy(p, i)
    && (Collects(p, i) && i.MakeTuple? ==> forall objs :: SafeWith(p, objs) ==> ElementsStay(p, objs, i.elems))
  }

  ghost function Fits(p: Proc, objs: Objects, i: Instr): bool {
    SnapshotOf(p, objs).LiveSize() + Need(i) <= |p.heap.from|
  }

  ghost function HintFor(p: Proc, objs: Objects, i: Instr): Hint {
    Hint(seq(|p.regs|, r requires 0 <= r < |p.regs| => Offset(p.regs[r])), Fits(p, objs, i))
  }

  // ---- collection ----

  // A collection fits the live data exactly, and leaves alone exactly the
  // registers that StaysPut says.
  lemma RegistersStay(p: Proc, objs: Objects) returns (h: HeapValue, regs: seq<Word>)
    requires SafeWith(p, objs) && Roomy(|p.heap.from|, objs, SnapshotOf(p, objs).Live())
    ensures HeapModel.Collect(p.heap, p.regs) == Collected(h, regs)
    ensures |regs| == REG_COUNT && |h.from| == |p.heap.from| && h.hp == SnapshotOf(p, objs).LiveSize()
    ensures forall r: nat :: r < REG_COUNT ==> (regs[r] == p.regs[r] <==> StaysPut(p, objs, r))
  {
    var a := SnapshotOf(p, objs);
    var b, fwd := CollectIsIsomorphism(a, p.heap.to);
    h, regs := HeapModel.Collect(p.heap, p.regs).heap, b.roots;
    forall r: nat | r < REG_COUNT
      ensures regs[r] == p.regs[r] <==> StaysPut(p, objs, r)
    {
      if IsPointer(p.regs[r]) {
        RootsLand(a, p.heap.to, r);
        SamePointer(p.regs[r], LandsAt(a, Offset(p.regs[r])));
      } else {
        assert Moved(fwd, a.roots[r], b.roots[r]);
      }
    }
  }

  lemma SamePointer(w: Word, n: nat)
    requires IsPointer(w) && n < PAYLOAD_LIMIT
    ensures w == (if IsBoxed(w) then MakeBoxed(n) else MakeCons(n)) <==> Offset(w) == n
  {
  }

  lemma CollectRefines(p: Proc, objs: Objects, trees: seq<Tree>) returns (h: HeapValue, regs: seq<Word>, objs': Objects)
    requires Denoting(p, objs, trees)
    requires Roomy(|p.heap.from|, objs, SnapshotOf(p, objs).Live())
    ensures HeapModel.Collect(p.heap, p.regs) == Collected(h, regs)
    ensures Denoting(p.(heap := h, regs := regs), objs', trees)
    ensures |h.from| == |p.heap.from| && h.hp == SnapshotOf(p, objs).LiveSize()
    ensures forall r: nat :: r < REG_COUNT ==> (regs[r] == p.regs[r] <==> StaysPut(p, objs, r))
  {
    var a := SnapshotOf(p, objs);
    var _, _ := RegistersStay(p, objs);
    var b, fwd := CollectIsIsomorphism(a, p.heap.to);
    h, regs, objs' := HeapModel.Collect(p.heap, p.regs).heap, b.roots, b.objs;
    assert SnapshotOf(p.(heap := h, regs := regs), objs') == b;
    forall r | 0 <= r < REG_COUNT
      ensures Denotes(h.from, objs', regs[r], trees[r])
    {
      assert ValidTerm(a.objs, a.roots[r]) && Moved(fwd, a.roots[r], b.roots[r]);
      MovedDenotes(a, b, fwd, p.regs[r], regs[r], trees[r]);
    }
  }

  lemma LiveFits(p: Proc, objs: Objects)
    requires SafeWith(p, objs)
    ensures SnapshotOf(p, objs).LiveSize() <= p.heap.hp
  {
    WordsBounds(p.heap.hp, objs, SnapshotOf(p, objs).Live(), SnapshotOf(p, objs).Live());
  }

  // ---- allocation with room ----

  ghost predicate SpellsPair(words: seq<Word>, objs: Objects, ws: seq<Word>, obj: Obj, t: Tree) {
    && t.ConsT? && obj.Pair? && |ws| == 2
    && Denotes(words, objs, ws[0], t.head) && Denotes(words, objs, ws[1], t.tail)
  }

  ghost predicate SpellsTuple(words: seq<Word>, objs: Objects, ws: seq<Word>, obj: Obj, t: Tree) {
    && t.TupleT? && obj == Tuple(|t.elems|) && |ws| == 1 + |t.elems|
    && forall i :: 0 <= i < |t.elems| ==> Denotes(words, objs, ws[1 + i], t.elems[i])
  }

  lemma PlaceRefines(p: Proc, objs: Objects, trees: seq<Tree>, ws: seq<Word>, obj: Obj, dst: nat, w: Word, t: Tree)
    requires Denoting(p, objs, trees) && dst < REG_COUNT
    requires HasRoom(p.heap, |ws|) && |ws| == obj.Size()
    requires obj.Tuple? ==> ws[0] == TupleHeader(obj.arity) && obj.arity <= 16
    requires forall i :: (if obj.Tuple? then 1 else 0) <= i < |ws| ==> ValidTerm(objs, ws[i])
    requires w == if obj.Tuple? then MakeBoxed(p.heap.hp) else MakeCons(p.heap.hp)
    requires SpellsPair(p.heap.from, objs, ws, obj, t) || SpellsTuple(p.heap.from, objs, ws, obj, t)
    ensures p.heap.hp !in objs
    ensures Denoting(p.(heap := Place(p.heap, ws), regs := p.regs[dst := w]), objs[p.heap.hp := obj], trees[dst := t])
  {
    var h, objs' := Place(p.heap, ws), objs[p.heap.hp := obj];
    var p', trees' := p.(heap := h, regs := p.regs[dst := w]), trees[dst := t];
    assert Layout(h.from, h.hp, objs') && p.heap.hp !in objs by { PlaceObject(p.heap, objs, ws, obj); }
    forall r | 0 <= r < REG_COUNT
      ensures ValidTerm(objs', p'.regs[r]) && Denotes(h.from, objs', p'.regs[r], trees'[r])
    {
      PlaceObject(p.heap, objs, ws, obj);
      if r == dst {
        NewObjectDenotes(p.heap, objs, ws, obj, t);
      } else {
        RegisterStays(p, objs, trees, h.from, obj, r);
      }
    }
    assert SnapshotOf(p', objs').Valid();
  }

  lemma NewObjectDenotes(h: HeapValue, objs: Objects, ws: seq<Word>, obj: Obj, t: Tree)
    requires h.Valid() && Layout(h.from, h.hp, objs) && HasRoom(h, |ws|) && h.hp !in objs && |ws| == obj.Size()
    requires forall i :: (if obj.Tuple? then 1 else 0) <= i < |ws| ==> ValidTerm(objs, ws[i])
    requires SpellsPair(h.from, objs, ws, obj, t) || SpellsTuple(h.from, objs, ws, obj, t)
    ensures var w := if obj.Tuple? then MakeBoxed(h.hp) else MakeCons(h.hp);
            Denotes(Place(h, ws).from, objs[h.hp := obj], w, t) && ValidTerm(objs[h.hp := obj], w)
  {
    var words' := Place(h, ws).from;
    assert words'[..h.hp] == h.from[..h.hp];
    PlacedDenotes(h, objs, words', ws, obj, t);
  }

  lemma RegisterStays(p: Proc, objs: Objects, trees: seq<Tree>, words': seq<Word>, obj: Obj, r: nat)
    requires Denoting(p, objs, trees) && r < REG_COUNT && p.heap.hp !in objs
    requires |words'| == |p.heap.from| && words'[..p.heap.hp] == p.heap.from[..p.heap.hp]
    ensures ValidTerm(objs[p.heap.hp := obj], p.regs[r])
    ensures Denotes(words', objs[p.heap.hp := obj], p.regs[r], trees[r])
  {
    assert ValidTerm(objs, SnapshotOf(p, objs).roots[r]);
    StaysValid(p.heap.hp, objs, obj, p.regs[r]);
    PlaceKeepsTrees(p.heap, objs, words', obj, p.regs[r], trees[r]);
  }

  // The new object stands for the tree its words spell.
  lemma PlacedDenotes(h: HeapValue, objs: Objects, words': seq<Word>, ws: seq<Word>, obj: Obj, t: Tree)
    requires h.Valid() && Layout(h.from, h.hp, objs) && h.hp !in objs && h.hp < PAYLOAD_LIMIT
    requires |words'| == |h.from| && h.hp + |ws| <= |words'| && words'[..h.hp] == h.from[..h.hp]
    requires forall i: nat :: i < |ws| ==> words'[h.hp + i] == ws[i]
    requires forall i :: (if obj.Tuple? then 1 else 0) <= i < |ws| ==> ValidTerm(objs, ws[i])
    requires SpellsPair(h.from, objs, ws, obj, t) || SpellsTuple(h.from, objs, ws, obj, t)
    ensures var w := if obj.Tuple? then MakeBoxed(h.hp) else MakeCons(h.hp);
            Denotes(words', objs[h.hp := obj], w, t) && ValidTerm(objs[h.hp := obj], w)
  {
    PointerRoundTrip(h.hp);
    if obj.Pair? {
      PlaceKeepsTrees(h, objs, words', obj, ws[0], t.head);
      PlaceKeepsTrees(h, objs, words', obj, ws[1], t.tail);
    } else {
      forall i: nat | i < |t.elems|
        ensures Denotes(words', objs[h.hp := obj], words'[h.hp + 1 + i], t.elems[i])
      {
        assert words'[h.hp + (1 + i)] == ws[1 + i];
        PlaceKeepsTrees(h, objs, words', obj, ws[1 + i], t.elems[i]);
      }
    }
  }

  // ---- instructions ----

  // The two machines did the same thing and still agree.
  ghost predicate Agrees(r: Outcome, q: TreeOutcome, objs: Objects) {
    match r
    case Undefined => false
    case Did(p, s) => q.TreeDid? && q.status == s && q.t.c == p.c && Denoting(p, objs, q.t.regs)
    case Sends(p, rPid, target, cmd) =>
      && q.TreeSends? && q.t.c == p.c && Denoting(p, objs, q.t.regs)
      && q.rPid == rPid && q.target == target && q.cmd == cmd
  }

  lemma ConsRefines(p: Proc, objs: Objects, trees: seq<Tree>, i: Instr, at: nat, io: Io, h: Hint)
      returns (objs': Objects)
    requires Denoting(p, objs, trees) && i.Cons? && i.Wellformed() && CollectSafe(p, i)
    requires h.fits == Fits(p, objs, i)
    ensures Agrees(Execute(p, at, i, io), TreeExecute(TreeProc(p.c, trees), at, i, io, h), objs')
  {
    LiveFits(p, objs);
    var t := ConsT(trees[i.head], trees[i.tail]);
    if HasRoom(p.heap, 2) {
      PlaceRefines(p, objs, trees, [p.regs[i.head], p.regs[i.tail]], Pair, i.dst, MakeCons(p.heap.hp), t);
      objs' := objs[p.heap.hp := Pair];
    } else {
      var heap, regs, objs1 := CollectRefines(p, objs, trees);
      var p1 := p.(heap := heap, regs := regs);
      objs' := objs1;
      if HasRoom(heap, 2) {
        PlaceRefines(p1, objs1, trees, [regs[i.head], regs[i.tail]], Pair, i.dst, MakeCons(heap.hp), t);
        objs' := objs1[heap.hp := Pair];
      }
    }
  }

  lemma TupleSpelled(p: Proc, objs: Objects, trees: seq<Tree>, elems: seq<nat>, ws: seq<Word>)
    requires Denoting(p, objs, trees) && forall i :: 0 <= i < |elems| ==> elems[i] < REG_COUNT
    requires |ws| == |elems| && forall i :: 0 <= i < |elems| ==> ws[i] == p.regs[elems[i]]
    ensures SpellsTuple(p.heap.from, objs, [TupleHeader(|ws|)] + ws, Tuple(|ws|), TupleT(TreesAt(trees, elems)))
    ensures forall i :: 1 <= i < 1 + |ws| ==> ValidTerm(objs, ([TupleHeader(|ws|)] + ws)[i])
  {
  }

  lemma MakeTupleRefines(p: Proc, objs: Objects, trees: seq<Tree>, i: Instr, at: nat, io: Io, h: Hint)
      returns (objs': Objects)
    requires Denoting(p, objs, trees) && i.MakeTuple? && i.Wellformed() && CollectSafe(p, i)
    requires h.fits == Fits(p, objs, i)
    ensures Agrees(Execute(p, at, i, io), TreeExecute(TreeProc(p.c, trees), at, i, io, h), objs')
  {
    LiveFits(p, objs);
    var ws := ElemWords(p.regs, i.elems);
    var n, all, t := |ws|, [TupleHeader(|ws|)] + ws, TupleT(TreesAt(trees, i.elems));
    if HasRoom(p.heap, 1 + n) {
      TupleSpelled(p, objs, trees, i.elems, ws);
      PlaceRefines(p, objs, trees, all, Tuple(n), i.dst, MakeBoxed(p.heap.hp), t);
      objs' := objs[p.heap.hp := Tuple(n)];
    } else {
      var heap, regs, objs1 := CollectRefines(p, objs, trees);
      var p1 := p.(heap := heap, regs := regs);
      objs' := objs1;
      assert forall k :: 0 <= k < n ==> StaysPut(p, objs, i.elems[k]) && ws[k] == regs[i.elems[k]];
      if HasRoom(heap, 1 + n) {
        TupleSpelled(p1, objs1, trees, i.elems, ws);
        PlaceRefines(p1, objs1, trees, all, Tuple(n), i.dst, MakeBoxed(heap.hp), t);
        objs' := objs1[heap.hp := Tuple(n)];
      }
    }
  }

  // What lies where a pointer register points.
  lemma PointeeOf(p: Proc, objs: Objects, trees: seq<Tree>, r: nat)
    requires Denoting(p, objs, trees) && r < REG_COUNT && IsPointer(p.regs[r])
    ensures var o := Offset(p.regs[r]);
            && o in objs && o + objs[o].Size() <= p.heap.hp <= |p.heap.from|
            && (IsBoxed(p.regs[r]) ==>
                  && objs[o].Tuple? && trees[r].TupleT? && |trees[r].elems| == objs[o].arity
                  && IsTupleHeader(p.heap.from[o]) && TupleArity(p.heap.from[o]) == objs[o].arity)
            && (IsCons(p.regs[r]) ==> objs[o].Pair? && trees[r].ConsT?)
  {
    assert Denotes(p.heap.from, objs, p.regs[r], trees[r]);
    TreeOfPointer(p.heap.from, objs, p.regs[r], trees[r]);
    ObjectBelow(p, objs, Offset(p.regs[r]));
  }

  lemma ObjectBelow(p: Proc, objs: Objects, o: nat)
    requires SafeWith(p, objs) && o in objs
    ensures o + objs[o].Size() <= p.heap.hp <= |p.heap.from|
    ensures objs[o].Tuple? ==> IsTupleHeader(p.heap.from[o]) && TupleArity(p.heap.from[o]) == objs[o].arity
  {
    assert BelowAt(p.heap.hp, objs, o) && HasHeader(p.heap.from, objs, o);
  }

  lemma TreeOfPointer(words: seq<Word>, objs: Objects, w: Word, t: Tree)
    requires Denotes(words, objs, w, t) && IsPointer(w)
    ensures Offset(w) in objs
    ensures IsBoxed(w) ==> t.TupleT? && objs[Offset(w)] == Tuple(|t.elems|)
    ensures IsCons(w) ==> t.ConsT? && objs[Offset(w)].Pair?
  {
  }

  // Loading a field of a live object into a register.
  lemma LoadRefines(p: Proc, objs: Objects, trees: seq<Tree>, dst: nat, o: nat, k: nat, t: Tree)
    requires Denoting(p, objs, trees) && dst < REG_COUNT && IsField(objs, o, k) && k < |p.heap.from|
    requires Denotes(p.heap.from, objs, p.heap.from[k], t)
    ensures Denoting(p.(regs := p.regs[dst := p.heap.from[k]]), objs, trees[dst := t])
  {
    assert ValidTerm(objs, SnapshotOf(p, objs).words[k]);
  }

  lemma TupleElemRefines(p: Proc, objs: Objects, trees: seq<Tree>, i: Instr, at: nat, io: Io, h: Hint)
    requires Denoting(p, objs, trees) && i.Wellformed() && i.TupleElem?
    ensures Agrees(Execute(p, at, i, io), TreeExecute(TreeProc(p.c, trees), at, i, io, h), objs)
  {
    var w := p.regs[i.tuple];
    assert Denotes(p.heap.from, objs, w, trees[i.tuple]);
    if IsBoxed(w) {
      PointeeOf(p, objs, trees, i.tuple);
      if i.index < |trees[i.tuple].elems| {
        var o := Offset(w);
        LoadRefines(p, objs, trees, i.dst, o, o + 1 + i.index, trees[i.tuple].elems[i.index]);
      }
    }
  }

  lemma CellRefines(p: Proc, objs: Objects, trees: seq<Tree>, i: Instr, at: nat, io: Io, h: Hint)
    requires Denoting(p, objs, trees) && i.Wellformed() && (i.Head? || i.Tail?)
    ensures Agrees(Execute(p, at, i, io), TreeExecute(TreeProc(p.c, trees), at, i, io, h), objs)
  {
    var w := p.regs[i.cell];
    assert Denotes(p.heap.from, objs, w, trees[i.cell]);
    if IsCons(w) {
      PointeeOf(p, objs, trees, i.cell);
      var o := Offset(w);
      LoadRefines(p, objs, trees, i.dst, o, o, trees[i.cell].head);
      LoadRefines(p, objs, trees, i.dst, o, o + 1, trees[i.cell].tail);
    }
  }

  // Every heap word that i reads, header and fields, lies below hp.
  predicate ReadsAllocated(p: Proc, i: Instr) {
    match i
    case TupleElem(_, tuple, index) =>
      tuple < |p.regs| && IsBoxed(p.regs[tuple]) ==>
        var o := Offset(p.regs[tuple]);
        && o < p.heap.hp <= |p.heap.from|
        && (IsTupleHeader(p.heap.from[o]) && index < TupleArity(p.heap.from[o]) ==> o + 1 + index < p.heap.hp)
    case Head(_, cell) => cell < |p.regs| && IsCons(p.regs[cell]) ==> Offset(p.regs[cell]) < p.heap.hp
    case Tail(_, cell) => cell < |p.regs| && IsCons(p.regs[cell]) ==> Offset(p.regs[cell]) + 1 < p.heap.hp
    case _ => true
  }

  lemma ReadsBelowHp(p: Proc, objs: Objects, trees: seq<Tree>, i: Instr)
    requires Denoting(p, objs, trees)
    ensures ReadsAllocated(p, i)
  {
    match i
    case TupleElem(_, tuple, _) =>
      if tuple < REG_COUNT && IsBoxed(p.regs[tuple]) { PointeeOf(p, objs, trees, tuple); }
    case Head(_, cell) =>
      if cell < REG_COUNT && IsCons(p.regs[cell]) { PointeeOf(p, objs, trees, cell); }
    case Tail(_, cell) =>
      if cell < REG_COUNT && IsCons(p.regs[cell]) { PointeeOf(p, objs, trees, cell); }
    case _ =>
  }

  lemma ViewIsRegs(p: Proc, objs: Objects, trees: seq<Tree>, i: Instr)
    requires Denoting(p, objs, trees)
    ensures View(trees, HintFor(p, objs, i)) == p.regs
  {
    forall r | 0 <= r < REG_COUNT
      ensures View(trees, HintFor(p, objs, i))[r] == p.regs[r]
    {
      assert ValidTerm(objs, p.regs[r]);
    }
  }

  ghost predicate Immediates(ws: seq<Write>) { forall k :: 0 <= k < |ws| ==> IsImmediate(ws[k].value) }

  lemma {:induction false} WriteRefines(p: Proc, objs: Objects, trees: seq<Tree>, ws: seq<Write>)
    requires Denoting(p, objs, trees) && Immediates(ws)
    ensures Denoting(p.(regs := WriteAll(p.regs, ws)), objs, WriteLeaves(trees, ws))
    decreases |ws|
  {
    if ws != [] {
      var regs' := if ws[0].reg < |p.regs| then p.regs[ws[0].reg := ws[0].value] else p.regs;
      var trees' := if ws[0].reg < |trees| then trees[ws[0].reg := Leaf(ws[0].value)] else trees;
      WriteRefines(p.(regs := regs'), objs, trees', ws[1..]);
    }
  }

  lemma SimpleWritesImmediates(c: Control, regs: seq<Word>, at: nat, i: Instr, io: Io)
    ensures Immediates(Simple(c, regs, at, i, io).writes)
  {
    match i
    case ConstI32(_, v) => Tagged(v);
    case Add(_, a, b) => Tagged(IntAt(regs, a) + IntAt(regs, b));
    case Sub(_, a, b) => Tagged(IntAt(regs, a) - IntAt(regs, b));
    case CallBif(bif, args, dst) =>
      var r := Bif(regs, bif, args, dst, io);
      if r.BifValue? { Tagged(r.v); }
    case RecvCmd(_, _, _, _, _) => ReceiveWritesImmediates(c, at, i);
    case Self(_) =>
    case _ =>
  }

  lemma Tagged(v: int)
    ensures IsImmediate(MakeSmallint(v))
  {
  }

  lemma ReceiveWritesImmediates(c: Control, at: nat, i: Instr)
    requires i.RecvCmd?
    ensures Immediates(Receive(c, at, i).writes)
  {
    match RingPop(c.mailbox)
    case Empty =>
    case Popped(_, cmd) =>
      TagCommandImmediates(i, cmd.kind, cmd.a, cmd.b, cmd.c, cmd.d);
      TagCommandImmediates(i, CMD_NONE, Validate(cmd).Code(), 0, 0, 0);
  }

  lemma TagCommandImmediates(i: Instr, kind: int, a: int, b: int, c: int, d: int)
    requires i.RecvCmd?
    ensures Immediates(TagCommand(i, kind, a, b, c, d))
  {
    Tagged(kind); Tagged(a); Tagged(b); Tagged(c); Tagged(d);
  }

  lemma ExecuteRefines(p: Proc, objs: Objects, trees: seq<Tree>, at: nat, i: Instr, io: Io) returns (objs': Objects)
    requires Denoting(p, objs, trees) && i.Wellformed() && CollectSafe(p, i)
    ensures Agrees(Execute(p, at, i, io), TreeExecute(TreeProc(p.c, trees), at, i, io, HintFor(p, objs, i)), objs')
  {
    objs' := objs;
    var h := HintFor(p, objs, i);
    if i.Cons? {
      objs' := ConsRefines(p, objs, trees, i, at, io, h);
    } else if i.MakeTuple? {
      objs' := MakeTupleRefines(p, objs, trees, i, at, io, h);
    } else if i.TupleElem? {
      TupleElemRefines(p, objs, trees, i, at, io, h);
    } else if i.Head? || i.Tail? {
      CellRefines(p, objs, trees, i, at, io, h);
    } else if i.Move? {
      assert SafeWith(p.(regs := p.regs[i.dst := p.regs[i.a]]), objs);
    } else {
      ViewIsRegs(p, objs, trees, i);
      var e := Simple(p.c, p.regs, at, i, io);
      SimpleWritesImmediates(p.c, p.regs, at, i, io);
      WriteRefines(p, objs, trees, e.writes);
      assert Denoting(p.(c := e.c, regs := WriteAll(p.regs, e.writes)), objs, WriteLeaves(trees, e.writes));
    }
  }

  // ---- steps ----

  // The instruction a process is about to execute.
  function Next(p: Proc): Instr {
    if p.c.halted then Nop else
      match Decode(p.c.program, p.c.pc)
      case Fault(_, _) => Nop
      case Decoded(i, _) => i
  }

  // One step of arbitrary bytecode: every heap word it reads is allocated, no
  // access leaves the heap, no pointer is forged, and the step is the step of
  // the tree machine.
  lemma StepRefines(p: Proc, objs: Objects, trees: seq<Tree>, io: Io) returns (objs': Objects)
    requires Denoting(p, objs, trees) && CollectSafe(p, Next(p))
    ensures Agrees(Step(p, io), TreeStep(TreeProc(p.c, trees), io, HintFor(p, objs, Next(p))), objs')
    ensures ReadsAllocated(p, Next(p))
  {
    objs' := objs;
    ReadsBelowHp(p, objs, trees, Next(p));
    if !p.c.halted {
      match Decode(p.c.program, p.c.pc)
      case Fault(s, next) =>
        assert Denoting(p.(c := p.c.(pc := next, lastError := s)), objs, trees);
      case Decoded(i, next) =>
        var p1 := p.(c := p.c.(pc := next));
        SameHeap(p, p1, i);
        objs' := ExecuteRefines(p1, objs, trees, p.c.pc, i, io);
    }
  }

  lemma SameHeap(p: Proc, p1: Proc, i: Instr)
    requires p1.regs == p.regs && p1.heap == p.heap
    ensures CollectSafe(p, i) ==> CollectSafe(p1, i)
    ensures forall objs, trees :: Denoting(p, objs, trees) ==> Denoting(p1, objs, trees)
    ensures forall objs :: HintFor(p, objs, i) == HintFor(p1, objs, i)
  {
    assert forall objs :: SnapshotOf(p1, objs) == SnapshotOf(p, objs);
    assert forall objs :: SafeWith(p1, objs) ==> SafeWith(p, objs);
  }

  // CONS and MAKE_TUPLE run out of memory exactly when the data the registers
  // keep alive, plus the request, exceeds the capacity.
  lemma OutOfMemoryIsExact(p: Proc, objs: Objects, io: Io)
    requires SafeWith(p, objs) && CollectRoomy(p, Next(p)) && Need(Next(p)) > 0
    ensures Step(p, io).Did?
    ensures Step(p, io).status.HeapOom? <==> SnapshotOf(p, objs).LiveSize() + Need(Next(p)) > |p.heap.from|
    ensures !Step(p, io).status.HeapOom? ==> Step(p, io).status.Ok?
  {
    LiveFits(p, objs);
    if Collects(p, Next(p)) {
      var h, regs := RegistersStay(p, objs);
    }
  }
}
