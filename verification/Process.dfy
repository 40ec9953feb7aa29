// A process in memory (mb_process.h) and mb_proc_step on it: fetch helpers
// that advance the program counter, then one method per kind of instruction.
module Process {
  import opened Term
  import opened HeapModel
  import opened Commands
  import opened Mailbox
  import opened Bytecode
  import opened Machine
  import Heap

  // The opcodes with a fixed number of operands, arithmetic and heap apart.
  const PLAIN: set<Byte> := {0x01, 0x31, 0x20, 0x21, 0x22, 0x40}

  class Process {
    var pid: nat
    var state: State
    var program: seq<Byte>
    var pc: nat
    const regs: array<Word>
    const mailbox: Buffer
    var halted: bool
    var lastError: Status
    const heap: Heap.SemiSpace
    var sleepUntil: Word
    var reductions: nat

    ghost predicate Valid()
      reads this, mailbox, heap
    {
      && regs.Length == REG_COUNT && regs != heap.spaceA && regs != heap.spaceB
      && mailbox.Shaped() && heap.Valid()
    }

    // The memory a process owns; it never changes.
    ghost function Repr(): set<object> {
      {this, regs, mailbox, mailbox.items, heap, heap.spaceA, heap.spaceB}
    }

    // Nothing this process owns has changed.
    twostate predicate Untouched()
      reads this, regs, mailbox, mailbox.items, heap, heap.spaceA, heap.spaceB
    {
      && unchanged(this) && unchanged(regs) && unchanged(mailbox) && unchanged(mailbox.items)
      && unchanged(heap) && unchanged(heap.spaceA) && unchanged(heap.spaceB)
    }

    twostate lemma UntouchedIsSame()
      requires old(Valid()) && Untouched()
      ensures Valid() && Model() == old(Model())
    {
    }

    ghost function Ctl(): Control
      reads this, mailbox, mailbox.items
    {
      Control(pid, state, program, pc, mailbox.Model(), halted, lastError, sleepUntil, reductions)
    }

    ghost function Model(): (p: Proc)
      reads this, regs, mailbox, mailbox.items, heap, heap.spaceA, heap.spaceB
      requires Valid()
      ensures p.Shaped()
    {
      Proc(Ctl(), regs[..], heap.Model())
    }

    // An empty slot.
    constructor (capacity: nat)
      requires capacity <= MAX_SPACE
      ensures Valid() && fresh(Repr())
      ensures Model() == Spawned(0, [], capacity).(c := Spawned(0, [], capacity).c.(state := Free))
    {
      var h := new Heap.SemiSpace(capacity);
      var r := new Word[REG_COUNT](_ => 0);
      var b := new Buffer();
      regs, mailbox, heap := r, b, h;
      pid, state, program, pc := 0, Free, [], 0;
      halted, lastError, sleepUntil, reductions := false, Ok, 0, 0;
      new;
      assert regs[..] == Zeros(REG_COUNT);
    }

    // mb_proc_init: clear everything, then set what differs.
    method Init(pid: nat, program: seq<Byte>)
      requires Valid()
      modifies this, regs, mailbox, mailbox.items, heap, heap.spaceA, heap.spaceB
      ensures Valid() && Model() == Spawned(pid, program, old(|Model().heap.from|))
    {
      Clear();
      this.pid, state, this.program, pc := pid, Ready, program, 0;
      halted, lastError, sleepUntil, reductions := false, Ok, 0, 0;
    }

    // Registers, mailbox and heap.
    method Clear()
      requires Valid()
      modifies regs, mailbox, mailbox.items, heap, heap.spaceA, heap.spaceB
      ensures Valid() && regs[..] == Zeros(REG_COUNT) && mailbox.Model() == EmptyRing()
      ensures heap.Model() == EmptyHeap(heap.capacity)
    {
      ClearRegs();
      mailbox.Init();
      heap.Init();
    }

    method ClearRegs()
      requires Valid()
      modifies regs
      ensures regs[..] == Zeros(REG_COUNT)
    {
      forall i | 0 <= i < regs.Length {
        regs[i] := 0;
      }
    }

    // mb_vm_mailbox_push_proc, then the wake-up of a waiting receiver.
    method Accept(cmd: Command) returns (st: Status)
      requires Valid()
      modifies this`state, mailbox, mailbox.items
      ensures Valid()
      ensures var (c, s) := Machine.Accept(old(Ctl()), cmd); Model() == old(Model()).(c := c) && st == s
    {
      st := mailbox.Push(cmd);
      if st == Ok && state == Waiting {
        state := Ready;
      }
    }

    // ---- fetching ----

    // mb_fetch_u8.
    method FetchU8() returns (ok: bool, b: Byte)
      modifies this`pc
      ensures ok <==> old(pc) < |program|
      ensures ok ==> b == program[old(pc)] && pc == old(pc) + 1
      ensures !ok ==> pc == old(pc)
    {
      if pc >= |program| {
        return false, 0;
      }
      b := program[pc];
      pc := pc + 1;
      ok := true;
    }

    // n fetches, the first failing one ending them.
    method FetchBytes(n: nat) returns (ok: bool, bs: seq<Byte>)
      requires pc <= |program|
      modifies this`pc
      ensures ok <==> old(pc) + n <= |program|
      ensures ok ==> pc == old(pc) + n && bs == program[old(pc)..pc]
      ensures !ok ==> pc == |program|
    {
      bs := [];
      for i := 0 to n
        invariant pc == old(pc) + i <= |program| && bs == program[old(pc)..pc]
      {
        var b;
        ok, b := FetchU8();
        if !ok {
          return;
        }
        bs := bs + [b];
      }
      ok := true;
    }

    // mb_fetch_i32.
    method FetchI32() returns (ok: bool, v: int)
      requires pc <= |program|
      modifies this`pc
      ensures ok <==> old(pc) + 4 <= |program|
      ensures ok ==> pc == old(pc) + 4 && v == I32At(program, old(pc))
      ensures !ok ==> pc == |program|
    {
      var bs;
      ok, bs := FetchBytes(4);
      v := if ok then ToI32(bs[0], bs[1], bs[2], bs[3]) else 0;
    }

    // The operand loop of CALL_BIF and MAKE_TUPLE.
    method FetchRegs(n: nat) returns (r: Registers)
      requires pc <= |program|
      modifies this`pc
      ensures r == FetchRegisters(program, old(pc), n) && pc == r.next
    {
      var rs: seq<nat> := [];
      for i := 0 to n
        invariant pc == old(pc) + i <= |program| && |rs| == i
        invariant FetchRegisters(program, old(pc), n) == Prepend(rs, FetchRegisters(program, pc, n - i))
      {
        var ok, b := FetchU8();
        if !ok {
          return NoRegisters(Eof, pc);
        }
        if b >= REG_COUNT {
          return NoRegisters(BadReg, pc);
        }
        PrependOne(rs, b, FetchRegisters(program, pc, n - i - 1));
        rs := rs + [b];
      }
      return Registers(rs, pc);
    }

    static function Prepend(rs: seq<nat>, r: Registers): Registers {
      if r.Registers? then Registers(rs + r.regs, r.next) else r
    }

    static lemma PrependOne(rs: seq<nat>, b: nat, r: Registers)
      ensures Prepend(rs, Prepend([b], r)) == Prepend(rs + [b], r)
    {
      if r.Registers? {
        assert rs + ([b] + r.regs) == rs + [b] + r.regs;
      }
    }

    // The operands of an instruction with a fixed number n of them, at least
    // the first k of which are registers.
    method FetchOperands(n: nat, k: nat) returns (fault: Status, o: seq<Byte>)
      requires pc <= |program| && k <= n
      modifies this`pc
      ensures pc == if old(pc) + n <= |program| then old(pc) + n else |program|
      ensures fault == if old(pc) + n > |program| then Eof
                       else if !ValidRegs(program[old(pc)..old(pc) + k]) then BadReg else Ok
      ensures fault.Ok? ==> o == program[old(pc)..old(pc) + n]
    {
      var ok;
      ok, o := FetchBytes(n);
      if !ok {
        return Eof, o;
      }
      assert o[..k] == program[old(pc)..old(pc) + k];
      fault := if ValidRegs(o[..k]) then Ok else BadReg;
    }

    // ---- decoding ----

    // The instruction at the program counter, which moves past it.
    method FetchInstr() returns (d: Decoded)
      modifies this`pc
      ensures d == Decode(program, old(pc)) && pc == d.next
    {
      var ok, op := FetchU8();
      if !ok {
        return Fault(Eof, pc);
      }
      if op == 0x00 {
        return Decoded(Nop, pc);
      } else if op == 0x23 {
        return Decoded(Yield, pc);
      } else if op == 0xFF {
        return Decoded(Halt, pc);
      } else if op == 0x30 {
        var got, offset := FetchI32();
        return if got then Decoded(Jmp(offset), pc) else Fault(Eof, pc);
      } else if op in PLAIN {
        d := FetchPlain(op);
      } else if op == 0x02 || op == 0x03 || op == 0x04 {
        d := FetchAlu(op);
      } else if op == 0x10 {
        d := FetchBif();
      } else if 0x50 <= op <= 0x54 {
        d := FetchData(op);
      } else {
        return Fault(BadOpcode, pc);
      }
    }

    // n operand bytes, of which the first k are registers.
    static function OperandCount(op: Byte): nat
      requires op in PLAIN
    {
      if op == 0x01 || op == 0x31 || op == 0x20 then 5 else if op == 0x21 then 6 else 1
    }

    static function RegisterCount(op: Byte): (k: nat)
      requires op in PLAIN
      ensures k <= OperandCount(op)
    {
      if op == 0x01 || op == 0x31 then 1 else OperandCount(op)
    }

    static function PlainInstr(op: Byte, o: seq<Byte>): Instr
      requires op in PLAIN && |o| == OperandCount(op)
    {
      if op == 0x01 then ConstI32(o[0], ToI32(o[1], o[2], o[3], o[4]))
      else if op == 0x31 then JmpIfZero(o[0], ToI32(o[1], o[2], o[3], o[4]))
      else if op == 0x20 then RecvCmd(o[0], o[1], o[2], o[3], o[4])
      else if op == 0x21 then Send(o[0], o[1], o[2], o[3], o[4], o[5])
      else if op == 0x22 then Self(o[0])
      else SleepMs(o[0])
    }

    static lemma PlainDecodes(prog: seq<Byte>, at: nat, op: Byte, first: nat, end: nat)
      requires at < |prog| && prog[at] == op && op in PLAIN && first == at + 1 && end == first + OperandCount(op)
      ensures Decode(prog, at) ==
                if end > |prog| then Fault(Eof, |prog|)
                else if !ValidRegs(prog[first..first + RegisterCount(op)]) then Fault(BadReg, end)
                else Decoded(PlainInstr(op, prog[first..end]), end)
    {
      if end <= |prog| {
        var o := prog[first..end];
        var rs := prog[first..first + RegisterCount(op)];
        assert forall j :: 0 <= j < |rs| ==> rs[j] == o[j];
        assert o[0] == prog[at + 1];
        if op == 0x01 || op == 0x31 {
          assert ValidRegs(rs) <==> o[0] < REG_COUNT;
          assert I32At(prog, at + 2) == ToI32(o[1], o[2], o[3], o[4]);
        } else if op == 0x20 {
          assert o == prog[at + 1..at + 6];
        } else if op == 0x21 {
          assert o == prog[at + 1..at + 7];
        } else {
          assert ValidRegs(rs) <==> o[0] < REG_COUNT;
        }
      }
    }

    method FetchPlain(op: Byte) returns (d: Decoded)
      requires 0 < pc <= |program| && program[pc - 1] == op && op in PLAIN
      modifies this`pc
      ensures d == Decode(program, old(pc) - 1) && pc == d.next
    {
      PlainDecodes(program, pc - 1, op, pc, pc + OperandCount(op));
      var fault, o := FetchOperands(OperandCount(op), RegisterCount(op));
      return if fault != Ok then Fault(fault, pc) else Decoded(PlainInstr(op, o), pc);
    }

    method FetchAlu(op: Byte) returns (d: Decoded)
      requires 0 < pc <= |program| && program[pc - 1] == op && op in {0x02, 0x03, 0x04}
      modifies this`pc
      ensures d == DecodeAlu(program, old(pc) - 1) && pc == d.next
    {
      var fault, o := FetchOperands(3, 3);
      if fault != Ok {
        return Fault(fault, pc);
      }
      if op == 0x02 {
        return Decoded(Move(o[0], o[1]), pc);
      } else if op == 0x03 {
        return Decoded(Add(o[0], o[1], o[2]), pc);
      } else {
        return Decoded(Sub(o[0], o[1], o[2]), pc);
      }
    }

    method FetchBif() returns (d: Decoded)
      requires 0 < pc <= |program| && program[pc - 1] == 0x10
      modifies this`pc
      ensures d == DecodeBif(program, old(pc) - 1) && pc == d.next
    {
      var fault, o := FetchOperands(2, 0);
      if fault != Ok {
        return Fault(fault, pc);
      }
      if o[1] > 8 {
        return Fault(BadArgc, pc);
      }
      var r := FetchRegs(o[1]);
      if r.NoRegisters? {
        return Fault(r.status, pc);
      }
      var ok, dst := FetchU8();
      return if ok then Decoded(CallBif(o[0], r.regs, dst), pc) else Fault(Eof, pc);
    }

    method FetchData(op: Byte) returns (d: Decoded)
      requires 0 < pc <= |program| && program[pc - 1] == op && 0x50 <= op <= 0x54
      modifies this`pc
      ensures d == DecodeData(program, old(pc) - 1) && pc == d.next
    {
      if op == 0x50 {
        d := FetchMakeTuple();
        return;
      }
      var n := if op == 0x51 || op == 0x52 then 3 else 2;
      var fault, o := FetchOperands(n, if op == 0x52 then 3 else 2);
      if fault != Ok {
        return Fault(fault, pc);
      }
      if op == 0x51 {
        return Decoded(TupleElem(o[0], o[1], o[2]), pc);
      } else if op == 0x52 {
        return Decoded(Cons(o[0], o[1], o[2]), pc);
      } else if op == 0x53 {
        return Decoded(Head(o[0], o[1]), pc);
      } else {
        return Decoded(Tail(o[0], o[1]), pc);
      }
    }

    method FetchMakeTuple() returns (d: Decoded)
      requires 0 < pc <= |program| && program[pc - 1] == 0x50
      modifies this`pc
      ensures d == DecodeData(program, old(pc) - 1) && pc == d.next
    {
      var fault, o := FetchOperands(2, 0);
      if fault != Ok {
        return Fault(fault, pc);
      }
      if o[0] >= REG_COUNT || o[1] > 16 {
        return Fault(if o[1] > 16 then BadArity else BadReg, pc);
      }
      var r := FetchRegs(o[1]);
      return if r.NoRegisters? then Fault(r.status, pc) else Decoded(MakeTuple(o[0], r.regs), pc);
    }

    // ---- executing ----

    method Put(r: nat, w: Word)
      requires Valid() && r < REG_COUNT
      modifies regs
      ensures regs[..] == old(regs[..])[r := w]
    {
      regs[r] := w;
    }

    method Refuse(s: Status) returns (st: Status)
      requires Valid()
      modifies this`lastError
      ensures st == s && Valid() && Model() == old(Model()).(c := old(Model()).c.(lastError := s))
    {
      lastError := s;
      st := s;
    }

    // RECV_CMD: take a command, or rewind and wait.
    method Receive(at: nat, i: Instr, ghost io: Io) returns (st: Status)
      requires Valid() && i.RecvCmd? && i.Wellformed()
      modifies this, regs, mailbox
      ensures Valid() && Did(Model(), st) == Execute(old(Model()), at, i, io)
    {
      ghost var p := Model();
      var rc, cmd := mailbox.Pop();
      if rc != Ok {
        pc := at;
        state := Waiting;
        assert WriteAll(p.regs, []) == p.regs;
        return Ok;
      }
      var s := Validate(cmd);
      lastError := s;
      if s == Ok {
        Assign(i, cmd.kind, cmd.a, cmd.b, cmd.c, cmd.d);
      } else {
        Assign(i, CMD_NONE, s.Code(), 0, 0, 0);
      }
      return Ok;
    }

    // Five register writes, in this order.
    method Assign(i: Instr, kind: int, a: int, b: int, c: int, d: int)
      requires Valid() && i.RecvCmd? && i.Wellformed()
      modifies regs
      ensures regs[..] == WriteAll(old(regs[..]), TagCommand(i, kind, a, b, c, d))
    {
      ghost var rs := regs[..];
      Put(i.rType, MakeSmallint(kind));
      Put(i.rA, MakeSmallint(a));
      Put(i.rB, MakeSmallint(b));
      Put(i.rC, MakeSmallint(c));
      Put(i.rD, MakeSmallint(d));
      WriteFive(rs, TagCommand(i, kind, a, b, c, d));
    }

    // The integer in a register, whatever its tag.
    function RegInt(r: nat): (v: int)
      reads this, regs
      requires regs.Length == REG_COUNT && r < REG_COUNT
      ensures v == IntAt(regs[..], r)
    {
      GetSmallint(regs[r])
    }

    // mb_call_bif, given the driver's answer.
    method RunBif(bif: nat, args: seq<nat>, dst: nat, io: Io) returns (st: Status)
      requires Valid() && |args| <= 8 && forall k :: 0 <= k < |args| ==> args[k] < REG_COUNT
      modifies this`lastError, regs
      ensures Valid()
      ensures var p, r := old(Model()), Bif(old(regs[..]), bif, args, dst, io);
              if r.BifFault?
              then st == r.status && Model() == p.(c := p.c.(lastError := r.status))
              else st.Ok? && Model() == p.(c := p.c.(lastError := Ok), regs := p.regs[dst := MakeSmallint(r.v)])
    {
      var r := Answer(bif, args, dst, io);
      if r.BifFault? {
        lastError := r.status;
        return r.status;
      }
      lastError := Ok;
      Put(dst, MakeSmallint(r.v));
      return Ok;
    }

    // The checks of each BIF, then the driver's answer.
    method Answer(bif: nat, args: seq<nat>, dst: nat, io: Io) returns (r: BifResult)
      requires Valid() && forall k :: 0 <= k < |args| ==> args[k] < REG_COUNT
      ensures r == Bif(regs[..], bif, args, dst, io)
      ensures r.BifValue? ==> dst < REG_COUNT
    {
      if dst >= REG_COUNT { return BifFault(BadReg); }
      if (bif == 1 || bif == 2 || bif == 7) && |args| != 2 { return BifFault(BadArgc); }
      if bif == 3 && |args| != 3 { return BifFault(BadArgc); }
      if bif == 4 && |args| != 0 { return BifFault(BadArgc); }
      if bif == 5 && |args| != 1 { return BifFault(BadArgc); }
      if bif == 6 && |args| != 4 { return BifFault(BadArgc); }
      var ok;
      if bif == 1 {
        ok := ValidGpioPin(RegInt(args[0])) && (RegInt(args[1]) == 0 || RegInt(args[1]) == 1);
      } else if bif == 2 {
        ok := ValidPwmChannel(RegInt(args[0])) && ValidPwmDuty(RegInt(args[1]));
      } else if bif == 3 {
        ok := ValidI2cBus(RegInt(args[0])) && ValidI2cAddr(RegInt(args[1])) && ValidU8(RegInt(args[2]));
      } else if bif == 4 {
        return BifValue(io.now);
      } else if bif == 5 {
        ok := ValidGpioPin(RegInt(args[0]));
      } else if bif == 6 {
        ok := ValidI2cBus(RegInt(args[0])) && ValidI2cAddr(RegInt(args[1])) && ValidU8(RegInt(args[2]))
          && ValidU8(RegInt(args[3]));
      } else if bif == 7 {
        ok := ValidPwmChannel(RegInt(args[0])) && ValidPwmFrequency(RegInt(args[1]));
      } else {
        return BifFault(BadBif);
      }
      if !ok { return BifFault(BadArgument); }
      return BifValue(if (bif == 3 || bif == 5) && io.rc == 0 then io.value else io.rc);
    }

    method JumpBy(offset: int) returns (st: Status)
      requires Valid()
      modifies this`pc, this`lastError
      ensures Valid()
      ensures var e := Machine.JumpBy(old(Ctl()), offset);
              Model() == old(Model()).(c := e.c) && st == e.status && e.writes == []
    {
      if pc + offset < 0 {
        lastError := Eof;
        return Eof;
      }
      pc := pc + offset;
      if pc > |program| {
        lastError := Eof;
        return Eof;
      }
      return Ok;
    }

    // Write an immediate.
    method Load(r: nat, w: Word)
      requires Valid() && r < REG_COUNT
      modifies regs
      ensures Valid() && Model() == old(Model()).(regs := WriteAll(old(regs[..]), [Write(r, w)]))
    {
      WriteOne(regs[..], r, w);
      Put(r, w);
    }

    method RunArithmetic(at: nat, i: Instr, io: Io) returns (st: Status)
      requires Valid() && i.Wellformed() && (i.ConstI32? || i.Move? || i.Add? || i.Sub? || i.Self?)
      modifies regs
      ensures Valid() && Did(Model(), st) == Execute(old(Model()), at, i, io)
    {
      st := Ok;
      match i
      case ConstI32(dst, v) => Load(dst, MakeSmallint(v));
      case Move(dst, a) => Put(dst, regs[a]);
      case Add(dst, a, b) => Load(dst, MakeSmallint(RegInt(a) + RegInt(b)));
      case Sub(dst, a, b) => Load(dst, MakeSmallint(RegInt(a) - RegInt(b)));
      case Self(dst) => Load(dst, MakePid(pid));
    }

    method RunCall(at: nat, i: Instr, io: Io) returns (st: Status)
      requires Valid() && i.Wellformed() && i.CallBif?
      modifies this`lastError, regs
      ensures Valid() && Did(Model(), st) == Execute(old(Model()), at, i, io)
    {
      ghost var rs, r := regs[..], Bif(regs[..], i.bif, i.args, i.dst, io);
      if r.BifValue? {
        WriteOne(rs, i.dst, MakeSmallint(r.v));
      }
      assert WriteAll(rs, []) == rs;
      st := RunBif(i.bif, i.args, i.dst, io);
    }

    method RunControl(at: nat, i: Instr, io: Io) returns (st: Status)
      requires Valid() && i.Wellformed()
      requires i.Nop? || i.Yield? || i.Jmp? || i.JmpIfZero? || i.SleepMs? || i.Halt?
      modifies this
      ensures Valid() && Did(Model(), st) == Execute(old(Model()), at, i, io)
    {
      assert WriteAll(regs[..], []) == regs[..];
      st := Ok;
      match i
      case Yield => reductions := REDUCTIONS;
      case Jmp(offset) => st := JumpBy(offset);
      case JmpIfZero(r, offset) =>
        if regs[r] == MakeSmallint(0) { st := JumpBy(offset); }
      case SleepMs(r) =>
        sleepUntil := (io.now + RegInt(r)) % WORD_LIMIT;
        state := Sleeping;
      case Halt =>
        halted := true;
        state := Halted;
      case _ =>
    }

    // ---- the heap instructions ----

    method RunTuple(at: nat, i: Instr, io: Io) returns (st: Status)
      requires Valid() && i.Wellformed() && i.MakeTuple? && !Execute(Model(), at, i, io).Undefined?
      modifies this`lastError, regs, heap, heap.spaceA, heap.spaceB
      ensures Valid() && Did(Model(), st) == Execute(old(Model()), at, i, io)
    {
      var ws: seq<Word> := [];
      for k := 0 to |i.elems|
        invariant |ws| == k && forall j :: 0 <= j < k ==> ws[j] == regs[i.elems[j]]
      {
        ws := ws + [regs[i.elems[k]]];
      }
      assert ws == ElemWords(regs[..], i.elems);
      var t := heap.MakeTuple(ws);
      if t == 0 {
        heap.Collect(regs);
        t := heap.MakeTuple(ws);
        if t == 0 {
          lastError := HeapOom;
          return HeapOom;
        }
      }
      Put(i.dst, t);
      return Ok;
    }

    method RunCons(at: nat, i: Instr, io: Io) returns (st: Status)
      requires Valid() && i.Wellformed() && i.Cons? && !Execute(Model(), at, i, io).Undefined?
      modifies this`lastError, regs, heap, heap.spaceA, heap.spaceB
      ensures Valid() && Did(Model(), st) == Execute(old(Model()), at, i, io)
    {
      var t := heap.Cons(regs[i.head], regs[i.tail]);
      if t == 0 {
        heap.Collect(regs);
        t := heap.Cons(regs[i.head], regs[i.tail]);
        if t == 0 {
          lastError := HeapOom;
          return HeapOom;
        }
      }
      Put(i.dst, t);
      return Ok;
    }

    method RunRead(at: nat, i: Instr, io: Io) returns (st: Status)
      requires Valid() && i.Wellformed() && (i.TupleElem? || i.Head? || i.Tail?)
      requires !Execute(Model(), at, i, io).Undefined?
      modifies this`lastError, regs
      ensures Valid() && Did(Model(), st) == Execute(old(Model()), at, i, io)
    {
      if i.TupleElem? {
        if !IsBoxed(regs[i.tuple]) {
          st := Refuse(BadTerm);
          return;
        }
        var o := Offset(regs[i.tuple]);
        if !IsTupleHeader(heap.from[o]) {
          st := Refuse(BadTerm);
          return;
        }
        if i.index >= TupleArity(heap.from[o]) {
          st := Refuse(BadArity);
          return;
        }
        Put(i.dst, heap.from[o + 1 + i.index]);
      } else {
        if !IsCons(regs[i.cell]) {
          st := Refuse(BadTerm);
          return;
        }
        var o := Offset(regs[i.cell]);
        Put(i.dst, heap.from[if i.Head? then o else o + 1]);
      }
      return Ok;
    }

    // ---- mb_proc_step ----

    // A step ends with a status, or with a command to be sent.
    method Step(io: Io) returns (o: Ended)
      requires Valid() && !Machine.Step(Model(), io).Undefined?
      modifies this, regs, mailbox, mailbox.items, heap, heap.spaceA, heap.spaceB
      ensures Valid()
      ensures Machine.Step(old(Model()), io) ==
                match o
                case Finished(st) => Did(Model(), st)
                case Sending(rPid, target, cmd) => Sends(Model(), rPid, target, cmd)
    {
      if halted {
        return Finished(Ok);
      }
      var at := pc;
      var d := FetchInstr();
      if d.Fault? {
        lastError := d.status;
        return Finished(d.status);
      }
      var i := d.instr;
      if i.Send? {
        return Sending(i.rPid, RegInt(i.rPid) % 256,
                       Command(RegInt(i.rType), RegInt(i.rA), RegInt(i.rB), RegInt(i.rC), RegInt(i.rD)));
      }
      var st := Dispatch(at, i, io);
      return Finished(st);
    }

    method Dispatch(at: nat, i: Instr, io: Io) returns (st: Status)
      requires Valid() && i.Wellformed() && !i.Send? && !Execute(Model(), at, i, io).Undefined?
      modifies this, regs, mailbox, mailbox.items, heap, heap.spaceA, heap.spaceB
      ensures Valid() && Did(Model(), st) == Execute(old(Model()), at, i, io)
    {
      if i.RecvCmd? {
        st := Receive(at, i, io);
      } else if i.MakeTuple? {
        st := RunTuple(at, i, io);
      } else if i.Cons? {
        st := RunCons(at, i, io);
      } else if i.TupleElem? || i.Head? || i.Tail? {
        st := RunRead(at, i, io);
      } else if i.CallBif? {
        st := RunCall(at, i, io);
      } else if i.ConstI32? || i.Move? || i.Add? || i.Sub? || i.Self? {
        st := RunArithmetic(at, i, io);
      } else {
        st := RunControl(at, i, io);
      }
    }
  }

  datatype Ended = Finished(status: Status) | Sending(rPid: nat, target: nat, cmd: Command)
}
