// The ideal machine: registers hold immutable trees, nothing moves and
// nothing is ever collected.  It shares the control instructions of Machine.
//
// Arithmetic on a pointer register reads the bits of a heap offset, and memory
// is finite; the ideal machine is told both: where the data of each register
// currently lies, and whether an allocation fits.
module TreeMachine {
  import opened Term
  import opened Graph
  import opened Commands
  import opened Bytecode
  import opened Machine

  datatype TreeProc = TreeProc(c: Control, regs: seq<Tree>)

  datatype Hint = Hint(addresses: seq<nat>, fits: bool)

  datatype TreeOutcome =
    | TreeDid(t: TreeProc, status: Status)
    | TreeSends(t: TreeProc, rPid: nat, target: nat, cmd: Command)

  function ViewOf(t: Tree, address: nat): Word {
    match t
    case Leaf(w) => w
    case ConsT(_, _) => MakeCons(address)
    case TupleT(_) => MakeBoxed(address)
  }

  function AddressAt(h: Hint, r: nat): nat { if r < |h.addresses| then h.addresses[r] else 0 }

  // The registers as raw words.
  function View(regs: seq<Tree>, h: Hint): (ws: seq<Word>)
    ensures |ws| == |regs|
    ensures forall r :: 0 <= r < |regs| ==> ws[r] == ViewOf(regs[r], AddressAt(h, r))
  {
    seq(|regs|, r requires 0 <= r < |regs| => ViewOf(regs[r], AddressAt(h, r)))
  }

  function WriteLeaves(regs: seq<Tree>, ws: seq<Write>): (r: seq<Tree>)
    ensures |r| == |regs|
    decreases |ws|
  {
    if ws == [] then regs
    else WriteLeaves(if ws[0].reg < |regs| then regs[ws[0].reg := Leaf(ws[0].value)] else regs, ws[1..])
  }

  function TreeAt(regs: seq<Tree>, r: nat): Tree { if r < |regs| then regs[r] else Leaf(0) }

  function TreesAt(regs: seq<Tree>, rs: seq<nat>): (ts: seq<Tree>)
    ensures |ts| == |rs|
    ensures forall i :: 0 <= i < |rs| ==> ts[i] == TreeAt(regs, rs[i])
  {
    seq(|rs|, i requires 0 <= i < |rs| => TreeAt(regs, rs[i]))
  }

  function SetTree(t: TreeProc, dst: nat, v: Tree): TreeOutcome {
    TreeDid(if dst < |t.regs| then t.(regs := t.regs[dst := v]) else t, Ok)
  }

  function RefuseTree(t: TreeProc, s: Status): TreeOutcome { TreeDid(t.(c := t.c.(lastError := s)), s) }

  function TreeExecute(t: TreeProc, at: nat, i: Instr, io: Io, h: Hint): TreeOutcome {
    match i
    case Move(dst, a) => SetTree(t, dst, TreeAt(t.regs, a))
    case MakeTuple(dst, elems) =>
      if h.fits then SetTree(t, dst, TupleT(TreesAt(t.regs, elems))) else RefuseTree(t, HeapOom)
    case Cons(dst, head, tail) =>
      if h.fits then SetTree(t, dst, ConsT(TreeAt(t.regs, head), TreeAt(t.regs, tail))) else RefuseTree(t, HeapOom)
    case TupleElem(dst, tuple, index) =>
      var v := TreeAt(t.regs, tuple);
      if !v.TupleT? then RefuseTree(t, BadTerm)
      else if index >= |v.elems| then RefuseTree(t, BadArity)
      else SetTree(t, dst, v.elems[index])
    case Head(dst, cell) =>
      var v := TreeAt(t.regs, cell);
      if v.ConsT? then SetTree(t, dst, v.head) else RefuseTree(t, BadTerm)
    case Tail(dst, cell) =>
      var v := TreeAt(t.regs, cell);
      if v.ConsT? then SetTree(t, dst, v.tail) else RefuseTree(t, BadTerm)
    case Send(rPid, rType, rA, rB, rC, rD) =>
      var ws := View(t.regs, h);
      TreeSends(t, rPid, IntAt(ws, rPid) % 256,
                Command(IntAt(ws, rType), IntAt(ws, rA), IntAt(ws, rB), IntAt(ws, rC), IntAt(ws, rD)))
    case _ =>
      var e := Simple(t.c, View(t.regs, h), at, i, io);
      TreeDid(TreeProc(e.c, WriteLeaves(t.regs, e.writes)), e.status)
  }

  function TreeStep(t: TreeProc, io: Io, h: Hint): TreeOutcome {
    if t.c.halted then TreeDid(t, Ok) else
      match Decode(t.c.program, t.c.pc)
      case Fault(s, next) => RefuseTree(t.(c := t.c.(pc := next)), s)
      case Decoded(i, next) => TreeExecute(t.(c := t.c.(pc := next)), t.c.pc, i, io, h)
  }
}
