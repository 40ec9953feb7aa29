// What each instruction means, in numbers: the whole state that mb_proc_step
// leaves when a process executes it, from the decoded instruction on.
// Encoding says which bytes decode to it.
module Meanings {
  import opened Term
  import opened HeapModel
  import opened Commands
  import opened Mailbox
  import opened Bytecode
  import opened Machine
  import opened Messages

  // The address behind the next instruction of p.
  function After(p: Proc): nat { Decode(p.c.program, p.c.pc).next }

  // p with its program counter moved there and regs as its registers.
  function Past(p: Proc, regs: seq<Word>): Proc { p.(c := p.c.(pc := After(p)), regs := regs) }

  // p has failed at pc, with nothing else changed.
  function Failed(p: Proc, pc: nat, s: Status): Outcome { Did(p.(c := p.c.(pc := pc, lastError := s)), s) }

  // ---- constants, copies and PIDs ----

  // NOP does nothing, CONST_I32 loads a smallint: 28 bits of the value above
  // the tag 15.
  lemma LoadsConstant(p: Proc, i: Instr, io: Io)
    requires Stands(p, i) && (i.Nop? || i.ConstI32?)
    ensures i.Nop? ==> Step(p, io) == Did(Past(p, p.regs), Ok)
    ensures i.ConstI32? ==>
              var w: Word := i.value % 0x1000_0000 * 16 + 15;
              && Step(p, io) == Did(Past(p, p.regs[i.dst := w]), Ok)
              && IsSmallint(w) && GetSmallint(w) == Signed28(i.value)
  {
    assert WriteAll(p.regs, []) == p.regs;
    if i.ConstI32? {
      SmallintRoundTrip(i.value);
      WriteOne(p.regs, i.dst, MakeSmallint(i.value));
    }
  }

  // MOVE copies a word of any kind; SELF loads the process's own PID, tag 3.
  lemma CopiesWord(p: Proc, i: Instr, io: Io)
    requires Stands(p, i) && (i.Move? || i.Self?)
    ensures i.Move? ==> Step(p, io) == Did(Past(p, p.regs[i.dst := p.regs[i.a]]), Ok)
    ensures i.Self? && p.c.pid < 0x1000_0000 ==>
              var w: Word := p.c.pid * 16 + 3;
              Step(p, io) == Did(Past(p, p.regs[i.dst := w]), Ok) && IsPid(w) && Offset(w) == p.c.pid
  {
    if i.Self? {
      WriteOne(p.regs, i.dst, MakePid(p.c.pid));
    }
  }

  // ---- control ----

  // HALT stops the process for good: no further step changes it.
  lemma HaltStops(p: Proc, i: Instr, io: Io, io': Io)
    requires Stands(p, i) && i.Halt?
    ensures var r := Step(p, io);
            && r == Did(Past(p, p.regs).(c := p.c.(pc := After(p), halted := true, state := Halted)), Ok)
            && Step(r.p, io') == Did(r.p, Ok)
  {
    assert WriteAll(p.regs, []) == p.regs;
  }

  // YIELD uses up the 64 instructions of a tick.
  lemma YieldExhausts(p: Proc, i: Instr, io: Io)
    requires Stands(p, i) && i.Yield?
    ensures Step(p, io) == Did(Past(p, p.regs).(c := p.c.(pc := After(p), reductions := 64)), Ok)
  {
    assert WriteAll(p.regs, []) == p.regs;
  }

  // The instruction jumps: offsets count from behind the jump, forward and
  // backward alike.  A target before the program fails and leaves the counter
  // behind the jump; one past the end fails and leaves it at the target.
  predicate Jumps(p: Proc, offset: int, r: Outcome) {
    var target := After(p) + offset;
    if target < 0 then r == Failed(p, After(p), Eof)
    else if target > |p.c.program| then r == Failed(p, target, Eof)
    else r == Did(p.(c := p.c.(pc := target)), Ok)
  }

  lemma JumpsFrom(p: Proc, i: Instr, io: Io)
    requires Stands(p, i) && i.Jmp?
    ensures Jumps(p, i.offset, Step(p, io))
  {
    assert WriteAll(p.regs, []) == p.regs;
  }

  // JMP_IF_ZERO jumps iff the register holds the smallint 0, the word 15; the
  // word 0 of a fresh register is not that.
  lemma JumpsIfZero(p: Proc, i: Instr, io: Io)
    requires Stands(p, i) && i.JmpIfZero?
    ensures if p.regs[i.reg] == 15 then Jumps(p, i.offset, Step(p, io)) else Step(p, io) == Did(Past(p, p.regs), Ok)
    ensures p.regs[i.reg] == 15 <==> IsSmallint(p.regs[i.reg]) && IntAt(p.regs, i.reg) == 0
  {
    assert WriteAll(p.regs, []) == p.regs;
  }

  // SLEEP_MS puts the process to sleep and sets the deadline: the clock plus
  // the integer the register shows, modulo 2^32.
  lemma SleepSetsDeadline(p: Proc, i: Instr, io: Io)
    requires Stands(p, i) && i.SleepMs?
    ensures var deadline: Word := (io.now + IntAt(p.regs, i.reg)) % 0x1_0000_0000;
            Step(p, io) ==
              Did(Past(p, p.regs).(c := p.c.(pc := After(p), state := Sleeping, sleepUntil := deadline)), Ok)
  {
    assert WriteAll(p.regs, []) == p.regs;
  }

  // What cannot be decoded fails: the counter stops where the fetches did.
  lemma UndecodedFails(p: Proc, io: Io)
    requires !p.c.halted && Decode(p.c.program, p.c.pc).Fault?
    ensures Step(p, io) == Failed(p, After(p), Decode(p.c.program, p.c.pc).status)
  {
  }

  // ---- BIFs ----

  // How many arguments each BIF takes.
  const ARITIES: map<nat, nat> := map[1 := 2, 2 := 2, 3 := 3, 4 := 0, 5 := 1, 6 := 4, 7 := 2]

  // The documented ranges, for what the argument registers show.
  predicate InRange(bif: nat, a: seq<int>)
    requires bif in ARITIES && |a| == ARITIES[bif]
  {
    match bif
    case 1 => 0 <= a[0] <= 39 && 0 <= a[1] <= 1
    case 2 => 0 <= a[0] <= 7 && 0 <= a[1] <= 1000
    case 3 => 0 <= a[0] <= 3 && 0 <= a[1] <= 127 && 0 <= a[2] <= 255
    case 4 => true
    case 5 => 0 <= a[0] <= 39
    case 6 => 0 <= a[0] <= 3 && 0 <= a[1] <= 127 && 0 <= a[2] <= 255 && 0 <= a[3] <= 255
    case _ => 0 <= a[0] <= 7 && 1 <= a[1] <= 40000
  }

  // The two reads answer the byte if the driver succeeds, the clock answers
  // the time, and everything else the driver's status.
  function DriverSays(bif: nat, io: Io): int {
    if bif in {3, 5} && io.rc == 0 then io.value else if bif == 4 then io.now else io.rc
  }

  function Shown(regs: seq<Word>, args: seq<nat>): (a: seq<int>)
    ensures |a| == |args| && forall k :: 0 <= k < |args| ==> a[k] == IntAt(regs, args[k])
  {
    seq(|args|, k requires 0 <= k < |args| => IntAt(regs, args[k]))
  }

  // A call of a BIF: which one fails and how, and what an accepted call leaves
  // in the destination register and nowhere else.
  lemma BifAnswers(p: Proc, i: Instr, io: Io)
    requires Stands(p, i) && i.CallBif?
    ensures var r, a := Step(p, io), Shown(p.regs, i.args);
            if i.dst >= 16 then r == Failed(p, After(p), BadReg)
            else if i.bif !in ARITIES then r == Failed(p, After(p), BadBif)
            else if |a| != ARITIES[i.bif] then r == Failed(p, After(p), BadArgc)
            else if !InRange(i.bif, a) then r == Failed(p, After(p), BadArgument)
            else
              var w: Word := DriverSays(i.bif, io) % 0x1000_0000 * 16 + 15;
              && r == Did(Past(p, p.regs[i.dst := w]).(c := p.c.(pc := After(p), lastError := Ok)), Ok)
              && GetSmallint(w) == Signed28(DriverSays(i.bif, io))
  {
    assert WriteAll(p.regs, []) == p.regs;
    var v := DriverSays(i.bif, io);
    SmallintRoundTrip(v);
    if i.dst < 16 {
      BifDecides(p.regs, i.bif, i.args, i.dst, io);
      WriteOne(p.regs, i.dst, MakeSmallint(v));
    }
  }

  lemma BifDecides(regs: seq<Word>, bif: nat, args: seq<nat>, dst: nat, io: Io)
    requires dst < 16
    ensures var a := Shown(regs, args);
            Bif(regs, bif, args, dst, io) ==
              if bif !in ARITIES then BifFault(BadBif)
              else if |a| != ARITIES[bif] then BifFault(BadArgc)
              else if !InRange(bif, a) then BifFault(BadArgument)
              else BifValue(DriverSays(bif, io))
  {
  }

  // ---- heap instructions, word by word ----

  // Words from at on, in an otherwise unchanged space.
  ghost predicate Wrote(from: seq<Word>, from': seq<Word>, at: nat, ws: seq<Word>) {
    && |from'| == |from| && at + |ws| <= |from|
    && forall k :: 0 <= k < |from| ==> from'[k] == if at <= k < at + |ws| then ws[k - at] else from[k]
  }

  // Where there is room CONS writes head and tail at hp and loads a pointer,
  // tag 1, to them.
  lemma ConsWrites(p: Proc, i: Instr, io: Io)
    requires Stands(p, i) && i.Cons? && p.Shaped() && p.heap.hp + 2 <= |p.heap.from|
    ensures var r := Step(p, io);
            && r.Did? && r.status.Ok? && r.p.c == Past(p, p.regs).c
            && r.p.regs == p.regs[i.dst := p.heap.hp * 16 + 1]
            && r.p.heap.hp == p.heap.hp + 2 && r.p.heap.to == p.heap.to && r.p.heap.gcCount == p.heap.gcCount
            && Wrote(p.heap.from, r.p.heap.from, p.heap.hp, [p.regs[i.head], p.regs[i.tail]])
  {
  }

  // Where there is none it collects, once: the collection is counted, and the
  // space that was in use is cleared.
  lemma ConsCollects(p: Proc, i: Instr, io: Io)
    requires Stands(p, i) && i.Cons? && p.Shaped() && p.heap.hp + 2 > |p.heap.from| && Step(p, io).Did?
    ensures var r := Step(p, io);
            && r.p.heap.gcCount == (p.heap.gcCount + 1) % 0x1_0000_0000
            && |r.p.heap.to| == |p.heap.from|
            && (forall k :: 0 <= k < |r.p.heap.to| ==> r.p.heap.to[k] == 0)
            && (r.status.Ok? || (r.status.HeapOom? && r.p.c == p.c.(pc := After(p), lastError := HeapOom)))
            && (r.status.Ok? ==> r.p.c == Past(p, p.regs).c)
  {
  }

  // Where there is room MAKE_TUPLE writes a header, 64 times the arity, and
  // the elements, and loads a pointer, tag 2, to them.
  lemma TupleWrites(p: Proc, i: Instr, io: Io)
    requires Stands(p, i) && i.MakeTuple? && p.Shaped() && p.heap.hp + 1 + |i.elems| <= |p.heap.from|
    ensures var r, ws := Step(p, io), seq(|i.elems|, k requires 0 <= k < |i.elems| => p.regs[i.elems[k]]);
            && r.Did? && r.status.Ok? && r.p.c == Past(p, p.regs).c
            && r.p.regs == p.regs[i.dst := p.heap.hp * 16 + 2]
            && r.p.heap.hp == p.heap.hp + 1 + |i.elems|
            && r.p.heap.to == p.heap.to && r.p.heap.gcCount == p.heap.gcCount
            && Wrote(p.heap.from, r.p.heap.from, p.heap.hp, [64 * |i.elems|] + ws)
  {
    var ws := seq(|i.elems|, k requires 0 <= k < |i.elems| => p.regs[i.elems[k]]);
    assert ws == ElemWords(p.regs, i.elems);
    TuplePlaced(p.heap, ws);
    assert Step(p, io) == DoMakeTuple(Past(p, p.regs), i.dst, i.elems);
  }

  lemma TuplePlaced(h: HeapValue, ws: seq<Word>)
    requires h.Valid() && h.hp + 1 + |ws| <= |h.from| && |ws| <= 16
    ensures var (h', t) := HeapModel.MakeTuple(h, ws);
            && t == h.hp * 16 + 2 && h' == h.(from := h'.from, hp := h.hp + 1 + |ws|)
            && Wrote(h.from, h'.from, h.hp, [64 * |ws|] + ws)
  {
  }

  // HEAD and TAIL read the two words a pointer with tag 1 leads to.
  lemma CellReads(p: Proc, i: Instr, io: Io)
    requires Stands(p, i) && (i.Head? || i.Tail?)
    requires p.regs[i.cell] % 16 == 1 ==> p.regs[i.cell] / 16 + 1 < |p.heap.from|
    ensures var w := p.regs[i.cell];
            if w % 16 != 1 then Step(p, io) == Failed(p, After(p), BadTerm)
            else
              Step(p, io) ==
                Did(Past(p, p.regs[i.dst := p.heap.from[if i.Head? then w / 16 else w / 16 + 1]]), Ok)
  {
  }

  // TUPLE_ELEM follows a pointer with tag 2 to a header, checks the index
  // against the arity and reads the word that many behind it.
  lemma ElementReads(p: Proc, i: Instr, io: Io)
    requires Stands(p, i) && i.TupleElem?
    requires var w := p.regs[i.tuple];
             w % 16 == 2 ==>
               && w / 16 < |p.heap.from|
               && (p.heap.from[w / 16] % 64 == 0 ==> w / 16 + p.heap.from[w / 16] / 64 < |p.heap.from|)
    ensures var w := p.regs[i.tuple];
            if w % 16 != 2 || p.heap.from[w / 16] % 64 != 0 then Step(p, io) == Failed(p, After(p), BadTerm)
            else if i.index >= p.heap.from[w / 16] / 64 then Step(p, io) == Failed(p, After(p), BadArity)
            else Step(p, io) == Did(Past(p, p.regs[i.dst := p.heap.from[w / 16 + 1 + i.index]]), Ok)
  {
  }

  // What the word of a register can be, as long as it is one of Graph's terms.
  lemma TermNibbles(w: Word)
    ensures IsImmediate(w) <==> w % 16 in {3, 11, 15}
    ensures IsPointer(w) <==> w % 16 in {1, 2}
  {
  }

  // A spawned process: READY at address 0, without mail, words or errors.
  lemma SpawnedIsFresh(pid: nat, program: seq<Byte>, capacity: nat)
    requires capacity <= MAX_SPACE
    ensures var p := Spawned(pid, program, capacity);
            && p.c.pid == pid && p.c.state.Ready? && p.c.program == program && p.c.pc == 0 && !p.c.halted
            && p.c.mailbox.Valid() && p.c.mailbox.Contents() == [] && p.c.lastError.Ok?
            && |p.regs| == 16 && (forall r :: 0 <= r < 16 ==> p.regs[r] == 0)
            && p.heap.hp == 0 && p.heap.gcCount == 0 && |p.heap.from| == |p.heap.to| == capacity
            && forall k :: 0 <= k < capacity ==> p.heap.from[k] == 0
  {
    assert EmptyRing().Contents() == [];
  }
}
