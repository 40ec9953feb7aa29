// The instruction set as the opcode table gives it (mb_vm.h:30-50), written
// from instructions to bytes, and what it has to do with Bytecode.Decode: the
// bytes of an instruction decode to it, nothing else does, and bytes that are
// no instruction fault in the documented way.
module Encoding {
  import opened Commands
  import opened Bytecode
  import opened FlowCompiler

  predicate IsReg(r: nat) { r < 16 }

  predicate AreRegs(rs: seq<nat>) { forall k :: 0 <= k < |rs| ==> rs[k] < 16 }

  predicate IsI32(v: int) { -0x8000_0000 <= v < 0x8000_0000 }

  // The instructions that have an encoding.
  predicate Encodable(i: Instr) {
    match i
    case Nop => true
    case ConstI32(d, v) => IsReg(d) && IsI32(v)
    case Move(d, a) => IsReg(d) && IsReg(a)
    case Add(d, a, b) => AreRegs([d, a, b])
    case Sub(d, a, b) => AreRegs([d, a, b])
    case CallBif(bif, args, d) => bif < 256 && |args| <= 8 && AreRegs(args) && d < 256
    case RecvCmd(t, a, b, c, d) => AreRegs([t, a, b, c, d])
    case Send(p, t, a, b, c, d) => AreRegs([p, t, a, b, c, d])
    case Self(d) => IsReg(d)
    case Yield => true
    case Jmp(offset) => IsI32(offset)
    case JmpIfZero(r, offset) => IsReg(r) && IsI32(offset)
    case SleepMs(r) => IsReg(r)
    case MakeTuple(d, es) => IsReg(d) && |es| <= 16 && AreRegs(es)
    case TupleElem(d, t, k) => IsReg(d) && IsReg(t) && k < 256
    case Cons(d, h, t) => AreRegs([d, h, t])
    case Head(d, c) => IsReg(d) && IsReg(c)
    case Tail(d, c) => IsReg(d) && IsReg(c)
    case Halt => true
  }

  // Register numbers as bytes.
  function RegBytes(rs: seq<nat>): (bs: seq<Byte>)
    requires AreRegs(rs)
    ensures |bs| == |rs| && forall k :: 0 <= k < |rs| ==> bs[k] == rs[k]
  {
    seq(|rs|, k requires 0 <= k < |rs| => rs[k])
  }

  // Opcode, then operands.  MOVE has a third operand, which has to name a
  // register and is not used.
  function Encode(i: Instr, spare: Byte): (bs: seq<Byte>)
    requires Encodable(i)
    ensures |bs| > 0
  {
    match i
    case Nop => [0x00]
    case ConstI32(d, v) => [0x01, d] + I32le(v)
    case Move(d, a) => [0x02, d, a, spare]
    case Add(d, a, b) => [0x03] + RegBytes([d, a, b])
    case Sub(d, a, b) => [0x04] + RegBytes([d, a, b])
    case CallBif(bif, args, d) => [0x10, bif, |args|] + RegBytes(args) + [d]
    case RecvCmd(t, a, b, c, d) => [0x20] + RegBytes([t, a, b, c, d])
    case Send(p, t, a, b, c, d) => [0x21] + RegBytes([p, t, a, b, c, d])
    case Self(d) => [0x22, d]
    case Yield => [0x23]
    case Jmp(offset) => [0x30] + I32le(offset)
    case JmpIfZero(r, offset) => [0x31, r] + I32le(offset)
    case SleepMs(r) => [0x40, r]
    case MakeTuple(d, es) => [0x50, d, |es|] + RegBytes(es)
    case TupleElem(d, t, k) => [0x51, d, t, k]
    case Cons(d, h, t) => [0x52] + RegBytes([d, h, t])
    case Head(d, c) => [0x53, d, c]
    case Tail(d, c) => [0x54, d, c]
    case Halt => [0xFF]
  }

  // The bytes bs stand in prog at pc.
  predicate StandsAt(prog: seq<Byte>, pc: nat, bs: seq<Byte>) {
    pc + |bs| <= |prog| && forall k :: 0 <= k < |bs| ==> prog[pc + k] == bs[k]
  }

  // ---- from instructions to bytes and back ----

  lemma StandsI32(prog: seq<Byte>, pc: nat, v: int)
    requires IsI32(v) && StandsAt(prog, pc, I32le(v))
    ensures pc + 4 <= |prog| && I32At(prog, pc) == v
  {
    I32RoundTrip(v);
    var bs := I32le(v);
    assert prog[pc + 0] == bs[0] && prog[pc + 1] == bs[1] && prog[pc + 2] == bs[2] && prog[pc + 3] == bs[3];
  }

  // A suffix of what stands at pc stands behind it.
  lemma StandsBehind(prog: seq<Byte>, pc: nat, a: seq<Byte>, b: seq<Byte>)
    requires StandsAt(prog, pc, a + b)
    ensures StandsAt(prog, pc, a) && StandsAt(prog, pc + |a|, b)
  {
    forall k | 0 <= k < |a|
      ensures prog[pc + k] == a[k]
    {
      assert (a + b)[k] == a[k];
    }
    forall k | 0 <= k < |b|
      ensures prog[pc + |a| + k] == b[k]
    {
      assert prog[pc + (|a| + k)] == (a + b)[|a| + k];
    }
  }

  // Registers, one byte each.
  lemma {:induction false} RegsFetched(prog: seq<Byte>, pc: nat, rs: seq<nat>)
    requires AreRegs(rs) && StandsAt(prog, pc, RegBytes(rs))
    ensures FetchRegisters(prog, pc, |rs|) == Registers(rs, pc + |rs|)
    decreases |rs|
  {
    if rs != [] {
      var first: seq<Byte> := [rs[0]];
      assert RegBytes(rs) == first + RegBytes(rs[1..]);
      StandsBehind(prog, pc, first, RegBytes(rs[1..]));
      assert prog[pc + 0] == first[0];
      RegsFetched(prog, pc + 1, rs[1..]);
      assert [rs[0]] + rs[1..] == rs;
    }
  }

  // The operand bytes of an instruction with a fixed number of registers.
  lemma RegSlice(prog: seq<Byte>, pc: nat, rs: seq<nat>)
    requires AreRegs(rs) && StandsAt(prog, pc, RegBytes(rs))
    ensures pc + |rs| <= |prog| && prog[pc..pc + |rs|] == RegBytes(rs) && ValidRegs(prog[pc..pc + |rs|])
  {
    var o, bs := prog[pc..pc + |rs|], RegBytes(rs);
    forall k | 0 <= k < |o|
      ensures o[k] == bs[k]
    {
      assert prog[pc + k] == bs[k];
    }
  }

  // CALL_BIF and MAKE_TUPLE, whose length is in the bytes.
  lemma DecodesCall(prog: seq<Byte>, pc: nat, i: Instr, spare: Byte)
    requires Encodable(i) && i.CallBif? && StandsAt(prog, pc, Encode(i, spare))
    ensures Decode(prog, pc) == Decoded(i, pc + |Encode(i, spare)|)
  {
    var head: seq<Byte> := [0x10, i.bif, |i.args|];
    StandsBehind(prog, pc, head + RegBytes(i.args), [i.dst]);
    StandsBehind(prog, pc, head, RegBytes(i.args));
    RegsFetched(prog, pc + 3, i.args);
    assert prog[pc + 0] == head[0] && prog[pc + 1] == head[1] && prog[pc + 2] == head[2];
    var n := |head + RegBytes(i.args)|;
    assert prog[pc + n + 0] == [i.dst as Byte][0];
  }

  lemma DecodesTuple(prog: seq<Byte>, pc: nat, i: Instr, spare: Byte)
    requires Encodable(i) && i.MakeTuple? && StandsAt(prog, pc, Encode(i, spare))
    ensures Decode(prog, pc) == Decoded(i, pc + |Encode(i, spare)|)
  {
    var head: seq<Byte> := [0x50, i.dst, |i.elems|];
    StandsBehind(prog, pc, head, RegBytes(i.elems));
    RegsFetched(prog, pc + 3, i.elems);
    assert prog[pc + 0] == head[0] && prog[pc + 1] == head[1] && prog[pc + 2] == head[2];
  }

  // Opcode and registers only.
  function RegsOf(i: Instr): seq<nat> {
    match i
    case Add(d, a, b) => [d, a, b]
    case Sub(d, a, b) => [d, a, b]
    case Cons(d, h, t) => [d, h, t]
    case RecvCmd(t, a, b, c, d) => [t, a, b, c, d]
    case Send(p, t, a, b, c, d) => [p, t, a, b, c, d]
    case _ => []
  }

  lemma DecodesRegs(prog: seq<Byte>, pc: nat, i: Instr, spare: Byte)
    requires Encodable(i) && RegsOf(i) != [] && StandsAt(prog, pc, Encode(i, spare))
    ensures Decode(prog, pc) == Decoded(i, pc + |Encode(i, spare)|)
  {
    var op := Encode(i, spare)[0];
    StandsBehind(prog, pc, [op], RegBytes(RegsOf(i)));
    RegSlice(prog, pc + 1, RegsOf(i));
    assert prog[pc + 0] == [op][0];
    var o: seq<nat> := prog[pc + 1..pc + 1 + |RegsOf(i)|];
    assert o == RegsOf(i);
  }

  lemma DecodesI32(prog: seq<Byte>, pc: nat, i: Instr, spare: Byte)
    requires Encodable(i) && (i.ConstI32? || i.Jmp? || i.JmpIfZero?) && StandsAt(prog, pc, Encode(i, spare))
    ensures Decode(prog, pc) == Decoded(i, pc + |Encode(i, spare)|)
  {
    var v := if i.ConstI32? then i.value else i.offset;
    var head: seq<Byte> := if i.ConstI32? then [0x01, i.dst] else if i.Jmp? then [0x30] else [0x31, i.reg];
    StandsBehind(prog, pc, head, I32le(v));
    StandsI32(prog, pc + |head|, v);
    assert prog[pc + 0] == head[0];
    assert |head| == 2 ==> prog[pc + 1] == head[1];
  }

  lemma DecodesShort(prog: seq<Byte>, pc: nat, i: Instr, spare: Byte)
    requires Encodable(i) && spare < 16 && StandsAt(prog, pc, Encode(i, spare))
    requires i.Nop? || i.Yield? || i.Halt? || i.Self? || i.SleepMs? || i.Move? || i.TupleElem? || i.Head? || i.Tail?
    ensures Decode(prog, pc) == Decoded(i, pc + |Encode(i, spare)|)
  {
    var bs := Encode(i, spare);
    assert prog[pc + 0] == bs[0];
    assert |bs| > 1 ==> prog[pc + 1] == bs[1];
    assert |bs| > 2 ==> prog[pc + 2] == bs[2];
    assert |bs| > 3 ==> prog[pc + 3] == bs[3];
  }

  // The bytes of an instruction, anywhere in any program, decode to it.
  lemma DecodesEncoded(prog: seq<Byte>, pc: nat, i: Instr, spare: Byte)
    requires Encodable(i) && spare < 16 && StandsAt(prog, pc, Encode(i, spare))
    ensures Decode(prog, pc) == Decoded(i, pc + |Encode(i, spare)|)
  {
    if i.CallBif? {
      DecodesCall(prog, pc, i, spare);
    } else if i.MakeTuple? {
      DecodesTuple(prog, pc, i, spare);
    } else if RegsOf(i) != [] {
      DecodesRegs(prog, pc, i, spare);
    } else if i.ConstI32? || i.Jmp? || i.JmpIfZero? {
      DecodesI32(prog, pc, i, spare);
    } else {
      DecodesShort(prog, pc, i, spare);
    }
  }

  // ---- from bytes back to instructions ----

  lemma Digits(b0: Byte, b1: Byte, b2: Byte, b3: Byte)
    ensures var u := b0 + b1 * 0x100 + b2 * 0x1_0000 + b3 * 0x100_0000;
            u % 256 == b0 && u / 256 % 256 == b1 && u / 0x1_0000 % 256 == b2 && u / 0x100_0000 % 256 == b3
  {
    var u := b0 + b1 * 0x100 + b2 * 0x1_0000 + b3 * 0x100_0000;
    assert u / 256 == b1 + b2 * 0x100 + b3 * 0x1_0000;
    assert u / 0x1_0000 == b2 + b3 * 0x100;
    assert u / 0x100_0000 == b3;
  }

  // Encoding undoes the fetch of an immediate.
  lemma BytesRoundTrip(b0: Byte, b1: Byte, b2: Byte, b3: Byte)
    ensures I32le(ToI32(b0, b1, b2, b3)) == [b0, b1, b2, b3]
  {
    Digits(b0, b1, b2, b3);
    var v := ToI32(b0, b1, b2, b3);
    if v < 0 {
      assert I32le(v) == I32le(0x1_0000_0000 + v);
    }
  }

  lemma I32Stands(prog: seq<Byte>, pc: nat)
    requires pc + 4 <= |prog|
    ensures IsI32(I32At(prog, pc)) && StandsAt(prog, pc, I32le(I32At(prog, pc)))
  {
    BytesRoundTrip(prog[pc], prog[pc + 1], prog[pc + 2], prog[pc + 3]);
  }

  lemma {:induction false} FetchedRegs(prog: seq<Byte>, pc: nat, n: nat)
    requires pc <= |prog| && FetchRegisters(prog, pc, n).Registers?
    ensures var rs := FetchRegisters(prog, pc, n).regs; AreRegs(rs) && StandsAt(prog, pc, RegBytes(rs))
    decreases n
  {
    if n > 0 {
      FetchedRegs(prog, pc + 1, n - 1);
      var rest := FetchRegisters(prog, pc + 1, n - 1).regs;
      var bs := RegBytes([prog[pc]] + rest);
      forall k | 0 <= k < |bs|
        ensures prog[pc + k] == bs[k]
      {
        if k > 0 { assert prog[pc + 1 + (k - 1)] == RegBytes(rest)[k - 1]; }
      }
    }
  }

  lemma StandJoin(prog: seq<Byte>, pc: nat, a: seq<Byte>, b: seq<Byte>)
    requires StandsAt(prog, pc, a) && StandsAt(prog, pc + |a|, b)
    ensures StandsAt(prog, pc, a + b)
  {
    forall k | 0 <= k < |a + b|
      ensures prog[pc + k] == (a + b)[k]
    {
      if k >= |a| { assert prog[pc + |a| + (k - |a|)] == b[k - |a|]; }
    }
  }

  // The decoded instruction's bytes stand where it was decoded.
  ghost predicate Spelled(prog: seq<Byte>, pc: nat, spare: Byte) {
    var d := Decode(prog, pc);
    && d.Decoded? && Encodable(d.instr) && spare < 16
    && StandsAt(prog, pc, Encode(d.instr, spare)) && d.next == pc + |Encode(d.instr, spare)|
  }

  lemma SpellsI32(prog: seq<Byte>, pc: nat)
    requires Decode(prog, pc).Decoded? && prog[pc] in {0x01, 0x30, 0x31}
    ensures Spelled(prog, pc, 0)
  {
    var i := Decode(prog, pc).instr;
    var head: seq<Byte> := if i.ConstI32? then [0x01, i.dst] else if i.Jmp? then [0x30] else [0x31, i.reg];
    I32Stands(prog, pc + |head|);
    assert StandsAt(prog, pc, head);
    StandJoin(prog, pc, head, I32le(I32At(prog, pc + |head|)));
  }

  lemma SpellsCounted(prog: seq<Byte>, pc: nat)
    requires Decode(prog, pc).Decoded? && prog[pc] in {0x10, 0x50}
    ensures Spelled(prog, pc, 0)
  {
    var i, n := Decode(prog, pc).instr, prog[pc + 2];
    FetchedRegs(prog, pc + 3, n);
    var rs, head := FetchRegisters(prog, pc + 3, n).regs, prog[pc..pc + 3];
    StandJoin(prog, pc, head, RegBytes(rs));
    if i.CallBif? {
      assert head == [0x10, i.bif, |i.args|];
      StandJoin(prog, pc, head + RegBytes(rs), [i.dst]);
    } else {
      assert head == [0x50, i.dst, |i.elems|];
    }
  }

  lemma SpellsRegs(prog: seq<Byte>, pc: nat)
    requires Decode(prog, pc).Decoded? && prog[pc] in {0x03, 0x04, 0x20, 0x21, 0x52}
    ensures Spelled(prog, pc, 0)
  {
    var i, next := Decode(prog, pc).instr, Decode(prog, pc).next;
    RegsDecoded(prog, pc);
    var rs, o := RegsOf(i), prog[pc + 1..next];
    assert RegBytes(rs) == o;
    StandJoin(prog, pc, [prog[pc]], o);
  }

  // The operands of such an instruction are the bytes behind its opcode.
  lemma RegsDecoded(prog: seq<Byte>, pc: nat)
    requires Decode(prog, pc).Decoded? && prog[pc] in {0x03, 0x04, 0x20, 0x21, 0x52}
    ensures var i, next := Decode(prog, pc).instr, Decode(prog, pc).next;
            var rs, o := RegsOf(i), prog[pc + 1..next];
            && Encodable(i) && Encode(i, 0) == [prog[pc]] + RegBytes(rs) && rs != []
            && |rs| == |o| && forall k :: 0 <= k < |rs| ==> rs[k] == o[k]
  {
  }

  lemma StandsShort(prog: seq<Byte>, pc: nat, bs: seq<Byte>)
    requires 0 < |bs| <= 4 && pc + |bs| <= |prog| && prog[pc] == bs[0]
    requires |bs| > 1 ==> prog[pc + 1] == bs[1]
    requires |bs| > 2 ==> prog[pc + 2] == bs[2]
    requires |bs| > 3 ==> prog[pc + 3] == bs[3]
    ensures StandsAt(prog, pc, bs)
  {
  }

  lemma SpellsShort(prog: seq<Byte>, pc: nat, spare: Byte)
    requires Decode(prog, pc).Decoded? && prog[pc] !in {0x01, 0x30, 0x31, 0x10, 0x50, 0x03, 0x04, 0x20, 0x21, 0x52}
    requires if prog[pc] == 0x02 then pc + 3 < |prog| && spare == prog[pc + 3] else spare == 0
    ensures Spelled(prog, pc, spare)
  {
    StandsShort(prog, pc, Encode(Decode(prog, pc).instr, spare));
  }

  // Whatever decodes is spelled by the bytes it was decoded from.
  lemma EncodesDecoded(prog: seq<Byte>, pc: nat) returns (spare: Byte)
    requires Decode(prog, pc).Decoded?
    ensures Spelled(prog, pc, spare)
  {
    spare := 0;
    var op := prog[pc];
    if op in {0x01, 0x30, 0x31} {
      SpellsI32(prog, pc);
    } else if op in {0x10, 0x50} {
      SpellsCounted(prog, pc);
    } else if op in {0x03, 0x04, 0x20, 0x21, 0x52} {
      SpellsRegs(prog, pc);
    } else {
      spare := if op == 0x02 then prog[pc + 3] else 0;
      SpellsShort(prog, pc, spare);
    }
  }

  // Decoding is the inverse of the opcode table: an instruction is decoded
  // exactly where its bytes stand, and the program counter moves past them.
  lemma DecodeInvertsEncode(prog: seq<Byte>, pc: nat, i: Instr, next: nat)
    ensures Decode(prog, pc) == Decoded(i, next) <==>
              && Encodable(i)
              && exists spare: Byte ::
                   spare < 16 && StandsAt(prog, pc, Encode(i, spare)) && next == pc + |Encode(i, spare)|
  {
    if Decode(prog, pc) == Decoded(i, next) {
      var spare := EncodesDecoded(prog, pc);
    }
    if Encodable(i) {
      forall spare: Byte | spare < 16 && StandsAt(prog, pc, Encode(i, spare))
        ensures Decode(prog, pc) == Decoded(i, pc + |Encode(i, spare)|)
      {
        DecodesEncoded(prog, pc, i, spare);
      }
    }
  }

  // ---- faults ----

  // The opcodes with a fixed number of operands: how many bytes follow, and
  // how many of them have to name a register.
  const LAYOUT: map<Byte, (nat, nat)> :=
    map[0x00 := (0, 0), 0x01 := (5, 1), 0x02 := (3, 3), 0x03 := (3, 3), 0x04 := (3, 3), 0x20 := (5, 5),
        0x21 := (6, 6), 0x22 := (1, 1), 0x23 := (0, 0), 0x30 := (4, 0), 0x31 := (5, 1), 0x40 := (1, 1),
        0x51 := (3, 2), 0x52 := (3, 3), 0x53 := (2, 2), 0x54 := (2, 2), 0xFF := (0, 0)]

  predicate NamesRegs(prog: seq<Byte>, pc: nat, n: nat) {
    pc + n <= |prog| && forall k :: pc <= k < pc + n ==> prog[k] < 16
  }

  lemma SliceNamesRegs(prog: seq<Byte>, pc: nat, n: nat)
    requires pc + n <= |prog|
    ensures ValidRegs(prog[pc..pc + n]) <==> NamesRegs(prog, pc, n)
  {
    var o := prog[pc..pc + n];
    if ValidRegs(o) {
      forall k | pc <= k < pc + n
        ensures prog[k] < 16
      {
        assert prog[k] == o[k - pc];
      }
    }
  }

  // All operands of a fixed instruction are fetched before any is checked.
  lemma FixedOperands(prog: seq<Byte>, pc: nat)
    requires pc < |prog| && prog[pc] in LAYOUT
    ensures var (n, k) := LAYOUT[prog[pc]];
            var d := Decode(prog, pc);
            && (pc + 1 + n > |prog| <==> d == Fault(Eof, |prog|))
            && (pc + 1 + n <= |prog| ==> d.next == pc + 1 + n)
            && (pc + 1 + n <= |prog| && !NamesRegs(prog, pc + 1, k) <==> d == Fault(BadReg, pc + 1 + n))
            && (pc + 1 + n <= |prog| && NamesRegs(prog, pc + 1, k) <==> d.Decoded?)
  {
    var (n, k) := LAYOUT[prog[pc]];
    if pc + 1 + n <= |prog| {
      SliceNamesRegs(prog, pc + 1, k);
    }
  }

  // The operand loop stops at the first byte that is missing or names no
  // register, right behind it.
  lemma {:induction false} OperandLoopFaults(prog: seq<Byte>, pc: nat, n: nat, k: nat)
    requires k < n && NamesRegs(prog, pc, k) && !NamesRegs(prog, pc, k + 1)
    ensures FetchRegisters(prog, pc, n) ==
              if pc + k >= |prog| then NoRegisters(Eof, pc + k) else NoRegisters(BadReg, pc + k + 1)
    decreases n
  {
    if k > 0 {
      OperandLoopFaults(prog, pc + 1, n - 1, k - 1);
    }
  }

  // CALL_BIF and MAKE_TUPLE: the two bytes in front of the loop, then the
  // first bad operand; MAKE_TUPLE looks at the arity before the destination.
  lemma CountedOperands(prog: seq<Byte>, pc: nat)
    requires pc < |prog| && prog[pc] in {0x10, 0x50}
    ensures pc + 3 > |prog| ==> Decode(prog, pc) == Fault(Eof, |prog|)
    ensures pc + 3 <= |prog| && prog[pc] == 0x10 && prog[pc + 2] > 8 ==> Decode(prog, pc) == Fault(BadArgc, pc + 3)
    ensures pc + 3 <= |prog| && prog[pc] == 0x50 && prog[pc + 2] > 16 ==> Decode(prog, pc) == Fault(BadArity, pc + 3)
    ensures pc + 3 <= |prog| && prog[pc] == 0x50 && prog[pc + 2] <= 16 && prog[pc + 1] >= 16 ==>
              Decode(prog, pc) == Fault(BadReg, pc + 3)
  {
  }

  // The operands proper, once those two bytes are in order.
  lemma CountedLoop(prog: seq<Byte>, pc: nat, k: nat)
    requires pc + 3 <= |prog| && prog[pc] in {0x10, 0x50} && k <= prog[pc + 2]
    requires prog[pc] == 0x10 ==> prog[pc + 2] <= 8
    requires prog[pc] == 0x50 ==> prog[pc + 2] <= 16 && prog[pc + 1] < 16
    requires NamesRegs(prog, pc + 3, k) && (k < prog[pc + 2] ==> !NamesRegs(prog, pc + 3, k + 1))
    ensures k < prog[pc + 2] && pc + 3 + k >= |prog| ==> Decode(prog, pc) == Fault(Eof, |prog|)
    ensures k < prog[pc + 2] && pc + 3 + k < |prog| ==> Decode(prog, pc) == Fault(BadReg, pc + 3 + k + 1)
    ensures k == prog[pc + 2] && prog[pc] == 0x10 && pc + 3 + k >= |prog| ==> Decode(prog, pc) == Fault(Eof, |prog|)
    ensures k == prog[pc + 2] && prog[pc] == 0x10 && pc + 3 + k < |prog| ==> Decode(prog, pc).Decoded?
    ensures k == prog[pc + 2] && prog[pc] == 0x50 ==> Decode(prog, pc).Decoded?
  {
    var n := prog[pc + 2];
    if k < n {
      OperandLoopFaults(prog, pc + 3, n, k);
    } else {
      var rs: seq<nat> := prog[pc + 3..pc + 3 + n];
      RegsFetched(prog, pc + 3, rs);
    }
  }

  // No other byte is an opcode, and behind the program there is none.
  lemma NoOpcode(prog: seq<Byte>, pc: nat)
    ensures pc >= |prog| ==> Decode(prog, pc) == Fault(Eof, pc)
    ensures pc < |prog| && prog[pc] !in LAYOUT && prog[pc] !in {0x10, 0x50} ==>
              Decode(prog, pc) == Fault(BadOpcode, pc + 1)
  {
  }
}
