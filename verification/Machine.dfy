// One instruction of one process (mb_proc_step in scheduler mode), as a
// function of the process and of what the hardware answers.
module Machine {
  import opened Term
  import opened HeapModel
  import opened Commands
  import opened Mailbox
  import opened Bytecode

  const REDUCTIONS := 64

  datatype State = Free | Ready | Waiting | Sleeping | Halted

  // What the hardware layer answers while one instruction runs: a driver's
  // status, the byte it reads, and the monotonic clock in milliseconds.
  datatype Io = Io(rc: int, value: Byte, now: Word)

  // A process without its registers and heap.
  datatype Control = Control(
    pid: nat,
    state: State,
    program: seq<Byte>,
    pc: nat,
    mailbox: Ring,
    halted: bool,
    lastError: Status,
    sleepUntil: Word,
    reductions: nat)

  datatype Proc = Proc(c: Control, regs: seq<Word>, heap: HeapValue) {
    ghost predicate Shaped() { |regs| == REG_COUNT && heap.Valid() }
  }

  // A register write.
  datatype Write = Write(reg: nat, value: Word)

  // What an instruction other than MOVE and the heap instructions does.  It
  // sees registers only as raw words and writes only immediates.
  datatype Effect = Effect(c: Control, writes: seq<Write>, status: Status)

  // SEND is finished by the scheduler, which owns the receiver.
  datatype Outcome =
    | Did(p: Proc, status: Status)
    | Sends(p: Proc, rPid: nat, target: nat, cmd: Command)
    | Undefined

  function WriteAll(regs: seq<Word>, ws: seq<Write>): (r: seq<Word>)
    ensures |r| == |regs|
    decreases |ws|
  {
    if ws == [] then regs
    else WriteAll(if ws[0].reg < |regs| then regs[ws[0].reg := ws[0].value] else regs, ws[1..])
  }

  lemma WriteOne(regs: seq<Word>, r: nat, w: Word)
    requires r < |regs|
    ensures WriteAll(regs, [Write(r, w)]) == regs[r := w]
  {
    assert WriteAll(regs[r := w], [Write(r, w)][1..]) == regs[r := w];
  }

  lemma WriteMore(regs: seq<Word>, ws: seq<Write>, k: nat)
    requires k < |ws| && ws[k].reg < |regs|
    ensures WriteAll(regs, ws[k..]) == WriteAll(regs[ws[k].reg := ws[k].value], ws[k + 1..])
  {
    assert ws[k..][0] == ws[k] && ws[k..][1..] == ws[k + 1..];
  }

  // Five register writes in a row.
  lemma WriteFive(regs: seq<Word>, ws: seq<Write>)
    requires |ws| == 5 && forall k :: 0 <= k < 5 ==> ws[k].reg < |regs|
    ensures WriteAll(regs, ws) ==
              regs[ws[0].reg := ws[0].value][ws[1].reg := ws[1].value][ws[2].reg := ws[2].value]
                  [ws[3].reg := ws[3].value][ws[4].reg := ws[4].value]
  {
    WriteMore(regs, ws, 0);
    var r1 := regs[ws[0].reg := ws[0].value];
    WriteMore(r1, ws, 1);
    var r2 := r1[ws[1].reg := ws[1].value];
    WriteMore(r2, ws, 2);
    var r3 := r2[ws[2].reg := ws[2].value];
    WriteMore(r3, ws, 3);
    var r4 := r3[ws[3].reg := ws[3].value];
    WriteMore(r4, ws, 4);
  }

  function Fail(c: Control, s: Status): Effect { Effect(c.(lastError := s), [], s) }

  function Done(c: Control, ws: seq<Write>): Effect { Effect(c, ws, Ok) }

  // The integer a register shows to arithmetic, BIFs and SEND, whatever its tag.
  function IntAt(regs: seq<Word>, r: nat): int {
    if r < |regs| then GetSmallint(regs[r]) else 0
  }

  datatype BifResult = BifValue(v: int) | BifFault(status: Status)

  // mb_call_bif, with the driver's answer given.
  function Bif(regs: seq<Word>, bif: nat, args: seq<nat>, dst: nat, io: Io): (r: BifResult)
    ensures r.BifFault? ==> !r.status.Ok?
  {
    var arg := (i: nat) => if i < |args| then IntAt(regs, args[i]) else 0;
    if dst >= REG_COUNT then BifFault(BadReg)
    else if bif == 1 then
      if |args| != 2 then BifFault(BadArgc)
      else if !ValidGpioPin(arg(0)) || (arg(1) != 0 && arg(1) != 1) then BifFault(BadArgument)
      else BifValue(io.rc)
    else if bif == 5 then
      if |args| != 1 then BifFault(BadArgc)
      else if !ValidGpioPin(arg(0)) then BifFault(BadArgument)
      else BifValue(if io.rc == 0 then io.value else io.rc)
    else if bif == 2 then
      if |args| != 2 then BifFault(BadArgc)
      else if !ValidPwmChannel(arg(0)) || !ValidPwmDuty(arg(1)) then BifFault(BadArgument)
      else BifValue(io.rc)
    else if bif == 7 then
      if |args| != 2 then BifFault(BadArgc)
      else if !ValidPwmChannel(arg(0)) || !ValidPwmFrequency(arg(1)) then BifFault(BadArgument)
      else BifValue(io.rc)
    else if bif == 3 then
      if |args| != 3 then BifFault(BadArgc)
      else if !ValidI2cBus(arg(0)) || !ValidI2cAddr(arg(1)) || !ValidU8(arg(2)) then BifFault(BadArgument)
      else BifValue(if io.rc == 0 then io.value else io.rc)
    else if bif == 6 then
      if |args| != 4 then BifFault(BadArgc)
      else if !ValidI2cBus(arg(0)) || !ValidI2cAddr(arg(1)) || !ValidU8(arg(2)) || !ValidU8(arg(3))
      then BifFault(BadArgument)
      else BifValue(io.rc)
    else if bif == 4 then
      if |args| != 0 then BifFault(BadArgc) else BifValue(io.now)
    else BifFault(BadBif)
  }

  // A taken jump.  A target before the program is refused; one past its end
  // is stored before it is refused.
  function JumpBy(c: Control, offset: int): Effect {
    if c.pc + offset < 0 then Fail(c, Eof)
    else if c.pc + offset > |c.program| then Fail(c.(pc := c.pc + offset), Eof)
    else Done(c.(pc := c.pc + offset), [])
  }

  function TagCommand(i: Instr, kind: int, a: int, b: int, c: int, d: int): seq<Write>
    requires i.RecvCmd?
  {
    [Write(i.rType, MakeSmallint(kind)), Write(i.rA, MakeSmallint(a)), Write(i.rB, MakeSmallint(b)),
     Write(i.rC, MakeSmallint(c)), Write(i.rD, MakeSmallint(d))]
  }

  // RECV_CMD; at is the address of the instruction.
  function Receive(c: Control, at: nat, i: Instr): Effect
    requires i.RecvCmd?
  {
    match RingPop(c.mailbox)
    case Empty => Done(c.(pc := at, state := Waiting), [])
    case Popped(ring, cmd) =>
      var s := Validate(cmd);
      var c' := c.(mailbox := ring, lastError := s);
      if s.Ok? then Done(c', TagCommand(i, cmd.kind, cmd.a, cmd.b, cmd.c, cmd.d))
      else Done(c', TagCommand(i, CMD_NONE, s.Code(), 0, 0, 0))
  }

  // The next instruction of c is a RECV_CMD.
  predicate AtReceive(c: Control) {
    var d := Decode(c.program, c.pc);
    d.Decoded? && d.instr.RecvCmd?
  }

  // What every instruction leaves alone, and what it may do to the state and
  // the mailbox of its own process.
  ghost predicate TameControl(c: Control, c': Control) {
    && c'.pid == c.pid && c'.program == c.program
    && (c'.reductions == c.reductions || c'.reductions == REDUCTIONS)
    && (c'.state == c.state || c'.state.Waiting? || c'.state.Sleeping? || c'.state.Halted?)
    && (c'.halted ==> c.halted || c'.state.Halted?)
    && (!c'.halted ==> !c.halted && (c'.state == c.state || !c'.state.Halted?))
    && (c'.mailbox != c.mailbox ==> RingPop(c.mailbox).Popped? && c'.mailbox == RingPop(c.mailbox).ring)
  }

  // Instructions that touch neither the heap nor other processes, except MOVE.
  // c has its counter after the operands.
  function Simple(c: Control, regs: seq<Word>, at: nat, i: Instr, io: Io): (e: Effect)
    ensures TameControl(c, e.c)
    ensures i.RecvCmd? ==> e == Receive(c, at, i)
    ensures !i.RecvCmd? ==> e.c.mailbox == c.mailbox && (e.c.state.Waiting? ==> c.state.Waiting?)
  {
    match i
    case ConstI32(dst, v) => Done(c, [Write(dst, MakeSmallint(v))])
    case Add(dst, a, b) => Done(c, [Write(dst, MakeSmallint(IntAt(regs, a) + IntAt(regs, b)))])
    case Sub(dst, a, b) => Done(c, [Write(dst, MakeSmallint(IntAt(regs, a) - IntAt(regs, b)))])
    case CallBif(bif, args, dst) =>
      (match Bif(regs, bif, args, dst, io)
       case BifFault(s) => Fail(c, s)
       case BifValue(v) => Done(c.(lastError := Ok), [Write(dst, MakeSmallint(v))]))
    case RecvCmd(_, _, _, _, _) => Receive(c, at, i)
    case Self(dst) => Done(c, [Write(dst, MakePid(c.pid))])
    case Yield => Done(c.(reductions := REDUCTIONS), [])
    case Jmp(offset) => JumpBy(c, offset)
    case JmpIfZero(r, offset) =>
      if r < |regs| && regs[r] == MakeSmallint(0) then JumpBy(c, offset) else Done(c, [])
    case SleepMs(r) =>
      Done(c.(sleepUntil := (io.now + IntAt(regs, r)) % WORD_LIMIT, state := Sleeping), [])
    case Halt => Done(c.(halted := true, state := Halted), [])
    case _ => Done(c, [])
  }

  ghost predicate SameSpace(p: Proc, p': Proc) {
    p.heap.Valid() ==> p'.heap.Valid() && |p'.heap.from| == |p.heap.from|
  }

  ghost predicate TameReceived(p: Proc, at: nat, r: Outcome)
    requires r.Did?
  {
    && r.status.Ok?
    && match RingPop(p.c.mailbox)
       case Empty => r.p == p.(c := p.c.(pc := at, state := Waiting))
       case Popped(ring, _) => r.p.c.mailbox == ring && r.p.c.state == p.c.state
  }

  function SetReg(p: Proc, dst: nat, w: Word): Outcome {
    if dst < |p.regs| then Did(p.(regs := p.regs[dst := w]), Ok) else Undefined
  }

  function Refuse(p: Proc, s: Status): Outcome { Did(p.(c := p.c.(lastError := s)), s) }

  function ElemWords(regs: seq<Word>, elems: seq<nat>): (ws: seq<Word>)
    ensures |ws| == |elems|
    ensures forall i :: 0 <= i < |elems| && elems[i] < |regs| ==> ws[i] == regs[elems[i]]
  {
    seq(|elems|, i requires 0 <= i < |elems| => if elems[i] < |regs| then regs[elems[i]] else 0)
  }

  // The elements are read before the allocation; after a collection the same
  // words are stored.
  function DoMakeTuple(p: Proc, dst: nat, elems: seq<nat>): (r: Outcome)
    ensures !r.Sends?
    ensures r.Did? ==> r.p.c == p.c || r.p.c == p.c.(lastError := r.status)
    ensures r.Did? ==> |r.p.regs| == |p.regs| && SameSpace(p, r.p)
  {
    var ws := ElemWords(p.regs, elems);
    var (h, t) := HeapModel.MakeTuple(p.heap, ws);
    if t != 0 then SetReg(p.(heap := h), dst, t)
    else
      match HeapModel.Collect(p.heap, p.regs)
      case Crashed => Undefined
      case Collected(heap, regs) =>
        var (h', t') := HeapModel.MakeTuple(heap, ws);
        if t' != 0 then SetReg(p.(heap := h', regs := regs), dst, t')
        else Refuse(p.(heap := heap, regs := regs), HeapOom)
  }

  // The operands are read again after a collection.
  function DoCons(p: Proc, dst: nat, head: nat, tail: nat): (r: Outcome)
    ensures !r.Sends?
    ensures r.Did? ==> r.p.c == p.c || r.p.c == p.c.(lastError := r.status)
    ensures r.Did? ==> |r.p.regs| == |p.regs| && SameSpace(p, r.p)
  {
    if head >= |p.regs| || tail >= |p.regs| then Undefined else
      var (h, t) := HeapModel.Cons(p.heap, p.regs[head], p.regs[tail]);
      if t != 0 then SetReg(p.(heap := h), dst, t)
      else
        match HeapModel.Collect(p.heap, p.regs)
        case Crashed => Undefined
        case Collected(heap, regs) =>
          if head >= |regs| || tail >= |regs| then Undefined else
            var (h', t') := HeapModel.Cons(heap, regs[head], regs[tail]);
            if t' != 0 then SetReg(p.(heap := h', regs := regs), dst, t')
            else Refuse(p.(heap := heap, regs := regs), HeapOom)
  }

  function DoTupleElem(p: Proc, dst: nat, tuple: nat, index: nat): (r: Outcome)
    ensures !r.Sends?
    ensures r.Did? ==> r.p.c == p.c || r.p.c == p.c.(lastError := r.status)
    ensures r.Did? ==> |r.p.regs| == |p.regs| && SameSpace(p, r.p)
  {
    if tuple >= |p.regs| then Undefined
    else if !IsBoxed(p.regs[tuple]) then Refuse(p, BadTerm)
    else
      var o := Offset(p.regs[tuple]);
      if o >= |p.heap.from| then Undefined
      else if !IsTupleHeader(p.heap.from[o]) then Refuse(p, BadTerm)
      else if index >= TupleArity(p.heap.from[o]) then Refuse(p, BadArity)
      else if o + 1 + index >= |p.heap.from| then Undefined
      else SetReg(p, dst, p.heap.from[o + 1 + index])
  }

  // HEAD and TAIL: the word at the given distance into a cons cell.
  function DoCell(p: Proc, dst: nat, cell: nat, k: nat): (r: Outcome)
    ensures !r.Sends?
    ensures r.Did? ==> r.p.c == p.c || r.p.c == p.c.(lastError := r.status)
    ensures r.Did? ==> |r.p.regs| == |p.regs| && SameSpace(p, r.p)
  {
    if cell >= |p.regs| then Undefined
    else if !IsCons(p.regs[cell]) then Refuse(p, BadTerm)
    else
      var o := Offset(p.regs[cell]) + k;
      if o >= |p.heap.from| then Undefined else SetReg(p, dst, p.heap.from[o])
  }

  // Execute a decoded instruction that was found at address at.
  function Execute(p: Proc, at: nat, i: Instr, io: Io): (r: Outcome)
    ensures r.Did? ==> TameControl(p.c, r.p.c) && |r.p.regs| == |p.regs| && SameSpace(p, r.p)
    ensures i.RecvCmd? ==> r.Did? && TameReceived(p, at, r)
    ensures r.Did? && !i.RecvCmd? ==>
              r.p.c.mailbox == p.c.mailbox && (r.p.c.state.Waiting? ==> p.c.state.Waiting?)
    ensures r.Sends? ==> !i.RecvCmd? && r.p == p
  {
    match i
    case Move(dst, a) => if a < |p.regs| then SetReg(p, dst, p.regs[a]) else Undefined
    case MakeTuple(dst, elems) => DoMakeTuple(p, dst, elems)
    case TupleElem(dst, tuple, index) => DoTupleElem(p, dst, tuple, index)
    case Cons(dst, head, tail) => DoCons(p, dst, head, tail)
    case Head(dst, cell) => DoCell(p, dst, cell, 0)
    case Tail(dst, cell) => DoCell(p, dst, cell, 1)
    case Send(rPid, rType, rA, rB, rC, rD) =>
      Sends(p, rPid, IntAt(p.regs, rPid) % 256,
            Command(IntAt(p.regs, rType), IntAt(p.regs, rA), IntAt(p.regs, rB), IntAt(p.regs, rC), IntAt(p.regs, rD)))
    case _ =>
      var e := Simple(p.c, p.regs, at, i, io);
      Did(p.(c := e.c, regs := WriteAll(p.regs, e.writes)), e.status)
  }

  // A process starts to wait only at a RECV_CMD that finds no message, and
  // then nothing else about it changes.
  ghost predicate TameBlock(p: Proc, r: Outcome)
    requires r.Did?
  {
    r.p.c.state.Waiting? && !p.c.state.Waiting? ==>
      && r.p == p.(c := p.c.(state := Waiting)) && r.status.Ok?
      && AtReceive(p.c) && RingPop(p.c.mailbox).Empty?
  }

  // A RECV_CMD that finds a message takes it; only a RECV_CMD takes one.
  ghost predicate TameReceive(p: Proc, r: Outcome)
    requires r.Did?
  {
    if AtReceive(p.c) && RingPop(p.c.mailbox).Popped?
    then r.p.c.mailbox == RingPop(p.c.mailbox).ring && r.status.Ok?
    else r.p.c.mailbox == p.c.mailbox
  }

  ghost predicate Tame(p: Proc, r: Outcome) {
    match r
    case Undefined => !p.c.halted && !AtReceive(p.c)
    case Did(p', st) =>
      if p.c.halted then p' == p && st.Ok?
      else
        && TameControl(p.c, p'.c) && |p'.regs| == |p.regs|
        && SameSpace(p, p')
        && TameBlock(p, r) && TameReceive(p, r)
    case Sends(p', _, _, _) =>
      !p.c.halted && !AtReceive(p.c) && p' == p.(c := p.c.(pc := p'.c.pc))
  }

  // mb_proc_step.
  function Step(p: Proc, io: Io): (r: Outcome)
    ensures Tame(p, r)
  {
    if p.c.halted then Did(p, Ok) else
      match Decode(p.c.program, p.c.pc)
      case Fault(s, next) => Refuse(p.(c := p.c.(pc := next)), s)
      case Decoded(i, next) => Execute(p.(c := p.c.(pc := next)), p.c.pc, i, io)
  }

  // ADD and SUB are integer arithmetic modulo 2^28 on what the registers show,
  // and exact when the result is a smallint; they change one register.
  lemma ArithmeticIsModular(p: Proc, i: Instr, io: Io)
    requires |p.regs| == REG_COUNT && !p.c.halted && (i.Add? || i.Sub?)
    requires Decode(p.c.program, p.c.pc).Decoded? && Decode(p.c.program, p.c.pc).instr == i
    ensures var v := if i.Add? then IntAt(p.regs, i.a) + IntAt(p.regs, i.b)
            else IntAt(p.regs, i.a) - IntAt(p.regs, i.b);
            var r := Step(p, io);
            && r.Did? && r.status.Ok? && r.p.heap == p.heap && |r.p.regs| == REG_COUNT
            && r.p.regs == p.regs[i.dst := r.p.regs[i.dst]]
            && IsSmallint(r.p.regs[i.dst]) && IntAt(r.p.regs, i.dst) == Signed28(v)
            && (SMALLINT_MIN <= v <= SMALLINT_MAX ==> IntAt(r.p.regs, i.dst) == v)
  {
    SmallintArithmetic(p.regs[i.a], p.regs[i.b]);
    var v := if i.Add? then IntAt(p.regs, i.a) + IntAt(p.regs, i.b) else IntAt(p.regs, i.a) - IntAt(p.regs, i.b);
    SmallintRoundTrip(v);
    WriteOne(p.regs, i.dst, MakeSmallint(v));
  }

  // Any instruction set with this discipline.  The scheduler's properties
  // hold for all of them.
  type Stepper = m: (Proc, Io) -> Outcome | forall p, io :: Tame(p, m(p, io))
    ghost witness Step

  // mb_proc_init.
  function Spawned(pid: nat, program: seq<Byte>, capacity: nat): Proc
    requires capacity <= MAX_SPACE
  {
    Proc(Control(pid, Ready, program, 0, EmptyRing(), false, Ok, 0, 0), Zeros(REG_COUNT), EmptyHeap(capacity))
  }

  // mb_vm_mailbox_push_proc, then the wake-up of a waiting receiver.
  function Accept(c: Control, cmd: Command): (Control, Status) {
    var (ring, s) := RingPush(c.mailbox, cmd);
    if !s.Ok? then (c, s)
    else (c.(mailbox := ring, state := if c.state.Waiting? then Ready else c.state), Ok)
  }
}
