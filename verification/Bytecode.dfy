// Instruction fetch and decode (mb_vm.c:17-38 and the operand fetches of
// mb_proc_step), with the order in which faults are detected and the program
// counter each fault leaves behind.
module Bytecode {
  import opened Commands

  type Byte = b: int | 0 <= b < 256

  const REG_COUNT := 16

  datatype Instr =
    | Nop
    | ConstI32(dst: nat, value: int)
    | Move(dst: nat, a: nat)
    | Add(dst: nat, a: nat, b: nat)
    | Sub(dst: nat, a: nat, b: nat)
    | CallBif(bif: nat, args: seq<nat>, dst: nat)
    | RecvCmd(rType: nat, rA: nat, rB: nat, rC: nat, rD: nat)
    | Send(rPid: nat, rType: nat, rA: nat, rB: nat, rC: nat, rD: nat)
    | Self(dst: nat)
    | Yield
    | Jmp(offset: int)
    | JmpIfZero(reg: nat, offset: int)
    | SleepMs(reg: nat)
    | MakeTuple(dst: nat, elems: seq<nat>)
    | TupleElem(dst: nat, tuple: nat, index: nat)
    | Cons(dst: nat, head: nat, tail: nat)
    | Head(dst: nat, cell: nat)
    | Tail(dst: nat, cell: nat)
    | Halt
  {
    // Every register operand names a register; only the destination of a BIF
    // call is left to the call itself.
    predicate Wellformed() {
      match this
      case Nop => true
      case ConstI32(d, _) => d < REG_COUNT
      case Move(d, a) => d < REG_COUNT && a < REG_COUNT
      case Add(d, a, b) => d < REG_COUNT && a < REG_COUNT && b < REG_COUNT
      case Sub(d, a, b) => d < REG_COUNT && a < REG_COUNT && b < REG_COUNT
      case CallBif(_, args, _) => |args| <= 8 && forall i :: 0 <= i < |args| ==> args[i] < REG_COUNT
      case RecvCmd(t, a, b, c, d) =>
        t < REG_COUNT && a < REG_COUNT && b < REG_COUNT && c < REG_COUNT && d < REG_COUNT
      case Send(p, t, a, b, c, d) =>
        p < REG_COUNT && t < REG_COUNT && a < REG_COUNT && b < REG_COUNT && c < REG_COUNT && d < REG_COUNT
      case Self(d) => d < REG_COUNT
      case Yield => true
      case Jmp(_) => true
      case JmpIfZero(r, _) => r < REG_COUNT
      case SleepMs(r) => r < REG_COUNT
      case MakeTuple(d, es) => d < REG_COUNT && |es| <= 16 && forall i :: 0 <= i < |es| ==> es[i] < REG_COUNT
      case TupleElem(d, t, _) => d < REG_COUNT && t < REG_COUNT
      case Cons(d, h, t) => d < REG_COUNT && h < REG_COUNT && t < REG_COUNT
      case Head(d, c) => d < REG_COUNT && c < REG_COUNT
      case Tail(d, c) => d < REG_COUNT && c < REG_COUNT
      case Halt => true
    }
  }

  // next is the program counter after the bytes consumed.
  datatype Decoded = Decoded(instr: Instr, next: nat) | Fault(status: Status, next: nat)

  datatype Registers = Registers(regs: seq<nat>, next: nat) | NoRegisters(status: Status, next: nat)

  // Little-endian two's complement.
  function ToI32(b0: Byte, b1: Byte, b2: Byte, b3: Byte): (v: int)
    ensures -0x8000_0000 <= v < 0x8000_0000
  {
    var u := b0 + b1 * 0x100 + b2 * 0x1_0000 + b3 * 0x100_0000;
    if u < 0x8000_0000 then u else u - 0x1_0000_0000
  }

  function I32At(prog: seq<Byte>, pc: nat): int
    requires pc + 4 <= |prog|
  {
    ToI32(prog[pc], prog[pc + 1], prog[pc + 2], prog[pc + 3])
  }

  // n register operands fetched and checked one at a time.
  function FetchRegisters(prog: seq<Byte>, pc: nat, n: nat): (r: Registers)
    ensures r.Registers? ==> |r.regs| == n && r.next == pc + n && (pc <= |prog| ==> r.next <= |prog|)
    ensures r.Registers? ==> forall i :: 0 <= i < n ==> r.regs[i] < REG_COUNT
    ensures r.NoRegisters? ==> !r.status.Ok? && pc <= r.next && (pc <= |prog| ==> r.next <= |prog|)
    decreases n
  {
    if n == 0 then Registers([], pc)
    else if pc >= |prog| then NoRegisters(Eof, pc)
    else if prog[pc] >= REG_COUNT then NoRegisters(BadReg, pc + 1)
    else
      match FetchRegisters(prog, pc + 1, n - 1)
      case NoRegisters(s, next) => NoRegisters(s, next)
      case Registers(rs, next) => Registers([prog[pc]] + rs, next)
  }

  predicate ValidRegs(bs: seq<Byte>) { forall i :: 0 <= i < |bs| ==> bs[i] < REG_COUNT }

  // Decode the instruction at pc.  A fixed number of operand bytes is fetched
  // before any is checked; running out of bytes leaves the counter at the end.
  function Decode(prog: seq<Byte>, pc: nat): (d: Decoded)
    ensures d.Decoded? ==> d.instr.Wellformed()
    ensures d.Fault? ==> !d.status.Ok?
    ensures d.Decoded? ==> pc < d.next <= |prog|
    ensures pc <= d.next && (pc <= |prog| ==> d.next <= |prog|)
  {
    if pc >= |prog| then Fault(Eof, pc) else
      var op := prog[pc];
      if op == 0x00 then Decoded(Nop, pc + 1)
      else if op == 0x01 then
        if pc + 6 > |prog| then Fault(Eof, |prog|)
        else if prog[pc + 1] >= REG_COUNT then Fault(BadReg, pc + 6)
        else Decoded(ConstI32(prog[pc + 1], I32At(prog, pc + 2)), pc + 6)
      else if op == 0x02 || op == 0x03 || op == 0x04 then DecodeAlu(prog, pc)
      else if op == 0x10 then DecodeBif(prog, pc)
      else if op == 0x20 then
        if pc + 6 > |prog| then Fault(Eof, |prog|)
        else if !ValidRegs(prog[pc + 1..pc + 6]) then Fault(BadReg, pc + 6)
        else
          var o := prog[pc + 1..pc + 6];
          Decoded(RecvCmd(o[0], o[1], o[2], o[3], o[4]), pc + 6)
      else if op == 0x21 then
        if pc + 7 > |prog| then Fault(Eof, |prog|)
        else if !ValidRegs(prog[pc + 1..pc + 7]) then Fault(BadReg, pc + 7)
        else
          var o := prog[pc + 1..pc + 7];
          Decoded(Send(o[0], o[1], o[2], o[3], o[4], o[5]), pc + 7)
      else if op == 0x22 || op == 0x40 then
        if pc + 2 > |prog| then Fault(Eof, |prog|)
        else if prog[pc + 1] >= REG_COUNT then Fault(BadReg, pc + 2)
        else Decoded(if op == 0x22 then Self(prog[pc + 1]) else SleepMs(prog[pc + 1]), pc + 2)
      else if op == 0x23 then Decoded(Yield, pc + 1)
      else if op == 0x30 then
        if pc + 5 > |prog| then Fault(Eof, |prog|)
        else Decoded(Jmp(I32At(prog, pc + 1)), pc + 5)
      else if op == 0x31 then
        if pc + 6 > |prog| then Fault(Eof, |prog|)
        else if prog[pc + 1] >= REG_COUNT then Fault(BadReg, pc + 6)
        else Decoded(JmpIfZero(prog[pc + 1], I32At(prog, pc + 2)), pc + 6)
      else if op == 0x50 || op == 0x51 || op == 0x52 || op == 0x53 || op == 0x54 then DecodeData(prog, pc)
      else if op == 0xFF then Decoded(Halt, pc + 1)
      else Fault(BadOpcode, pc + 1)
  }

  function DecodeAlu(prog: seq<Byte>, pc: nat): (d: Decoded)
    requires pc < |prog| && prog[pc] in {0x02, 0x03, 0x04}
    ensures d.Decoded? ==> d.instr.Wellformed()
    ensures d.Fault? ==> !d.status.Ok?
    ensures pc < d.next <= |prog|
  {
    if pc + 4 > |prog| then Fault(Eof, |prog|)
    else if !ValidRegs(prog[pc + 1..pc + 4]) then Fault(BadReg, pc + 4)
    else
      var o := prog[pc + 1..pc + 4];
      var i :=
        if prog[pc] == 0x02 then Move(o[0], o[1])
        else if prog[pc] == 0x03 then Add(o[0], o[1], o[2])
        else Sub(o[0], o[1], o[2]);
      Decoded(i, pc + 4)
  }

  function DecodeBif(prog: seq<Byte>, pc: nat): (d: Decoded)
    requires pc < |prog| && prog[pc] == 0x10
    ensures d.Decoded? ==> d.instr.Wellformed()
    ensures d.Fault? ==> !d.status.Ok?
    ensures pc < d.next <= |prog|
  {
    if pc + 3 > |prog| then Fault(Eof, |prog|)
    else if prog[pc + 2] > 8 then Fault(BadArgc, pc + 3)
    else
      match FetchRegisters(prog, pc + 3, prog[pc + 2])
      case NoRegisters(s, next) => Fault(s, next)
      case Registers(rs, next) =>
        if next >= |prog| then Fault(Eof, |prog|)
        else Decoded(CallBif(prog[pc + 1], rs, prog[next]), next + 1)
  }

  function DecodeData(prog: seq<Byte>, pc: nat): (d: Decoded)
    requires pc < |prog| && 0x50 <= prog[pc] <= 0x54
    ensures d.Decoded? ==> d.instr.Wellformed()
    ensures d.Fault? ==> !d.status.Ok?
    ensures pc < d.next <= |prog|
  {
    var op := prog[pc];
    if op == 0x50 then
      if pc + 3 > |prog| then Fault(Eof, |prog|)
      else if prog[pc + 2] > 16 then Fault(BadArity, pc + 3)
      else if prog[pc + 1] >= REG_COUNT then Fault(BadReg, pc + 3)
      else
        match FetchRegisters(prog, pc + 3, prog[pc + 2])
        case NoRegisters(s, next) => Fault(s, next)
        case Registers(rs, next) => Decoded(MakeTuple(prog[pc + 1], rs), next)
    else if op == 0x51 then
      if pc + 4 > |prog| then Fault(Eof, |prog|)
      else if !ValidRegs(prog[pc + 1..pc + 3]) then Fault(BadReg, pc + 4)
      else
        var o := prog[pc + 1..pc + 3];
        Decoded(TupleElem(o[0], o[1], prog[pc + 3]), pc + 4)
    else if op == 0x52 then
      if pc + 4 > |prog| then Fault(Eof, |prog|)
      else if !ValidRegs(prog[pc + 1..pc + 4]) then Fault(BadReg, pc + 4)
      else
        var o := prog[pc + 1..pc + 4];
        Decoded(Cons(o[0], o[1], o[2]), pc + 4)
    else
      if pc + 3 > |prog| then Fault(Eof, |prog|)
      else if !ValidRegs(prog[pc + 1..pc + 3]) then Fault(BadReg, pc + 3)
      else
        var o := prog[pc + 1..pc + 3];
        Decoded(if op == 0x53 then Head(o[0], o[1]) else Tail(o[0], o[1]), pc + 3)
  }
}
