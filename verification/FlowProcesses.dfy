// What the compiled programs do on the machine, one instruction at a time.
module FlowProcesses {
  import opened Term
  import opened Commands
  import opened Mailbox
  import opened Bytecode
  import opened Machine
  import opened FlowCompiler

  // ---- the compiled instructions ----

  function SensorInstr(s: Sensor, channel: int, actPid: int, pc: nat): Decoded {
    match pc
    case 0 => Decoded(ConstI32(0, Signed32(s.bus)), 6)
    case 6 => Decoded(ConstI32(1, Signed32(s.addr)), 12)
    case 12 => Decoded(ConstI32(2, Signed32(s.reg)), 18)
    case 18 => Decoded(ConstI32(3, Signed32(actPid)), 24)
    case 24 => Decoded(ConstI32(4, 2), 30)
    case 30 => Decoded(ConstI32(5, Signed32(channel)), 36)
    case 36 => Decoded(ConstI32(6, Signed32(s.pollMs)), 42)
    case 42 => Decoded(ConstI32(8, 0), 48)
    case 48 => Decoded(CallBif(3, [0, 1, 2], 7), 55)
    case 55 => Decoded(CallBif(4, [], 9), 59)
    case 59 => Decoded(Send(3, 4, 5, 7, 8, 8), 66)
    case 66 => if s.pollMs == 0 then Decoded(Yield, 67) else Decoded(SleepMs(6), 68)
    case _ => if s.pollMs == 0 then Decoded(Jmp(-24), 72) else Decoded(Jmp(-25), 73)
  }

  predicate SensorPc(s: Sensor, pc: nat) {
    (pc < 48 && pc % 6 == 0) || pc == 48 || pc == 55 || pc == 59 || pc == 66 || pc == JumpPc(s)
  }

  // The compiled bytes decode to the intended instructions, at every
  // instruction boundary.
  lemma SensorDecodes(s: Sensor, channel: int, actPid: int, pc: nat)
    requires SensorPc(s, pc)
    ensures Decode(CompileSensor(s, channel, actPid), pc) == SensorInstr(s, channel, actPid, pc)
  {
    if pc < 48 {
      var k := pc / 6;
      assert pc == 6 * k;
      ConstDecodes(s, channel, actPid, k);
    } else {
      LoopDecodes(s, channel, actPid, pc);
    }
  }

  lemma ConstAt(prog: seq<Byte>, pc: nat, r: Byte, v: int)
    requires pc + 6 <= |prog| && prog[pc..pc + 6] == ConstCode(r, v) && r < REG_COUNT
    ensures Decode(prog, pc) == Decoded(ConstI32(r, Signed32(v)), pc + 6)
  {
    I32RoundTrip(v);
    var chunk := prog[pc..pc + 6];
    assert prog[pc] == chunk[0] && prog[pc + 1] == chunk[1];
    assert prog[pc + 2] == chunk[2] && prog[pc + 3] == chunk[3] && prog[pc + 4] == chunk[4] && prog[pc + 5] == chunk[5];
  }

  lemma ConstDecodes(s: Sensor, channel: int, actPid: int, k: nat)
    requires k < 8
    ensures Decode(CompileSensor(s, channel, actPid), 6 * k) == SensorInstr(s, channel, actPid, 6 * k)
  {
    var cs, pc := SensorConsts(s, channel, actPid), 6 * k;
    var prog := CompileSensor(s, channel, actPid);
    assert pc / 6 == k;
    SensorLayout(s, channel, actPid);
    assert prog[pc..pc + 6] == ConstCode(cs[k].0, cs[k].1);
    ConstAt(prog, pc, cs[k].0, cs[k].1);
  }

  lemma JumpDecodes(prog: seq<Byte>, pc: nat, offset: int)
    requires pc + 5 == |prog| && prog[pc..] == [0x30] + I32le(offset)
    requires -0x8000_0000 <= offset < 0x8000_0000
    ensures Decode(prog, pc) == Decoded(Jmp(offset), pc + 5)
  {
    I32RoundTrip(offset);
    var chunk := prog[pc..];
    assert prog[pc] == chunk[0] && prog[pc + 1] == chunk[1] && prog[pc + 2] == chunk[2];
    assert prog[pc + 3] == chunk[3] && prog[pc + 4] == chunk[4];
  }

  // READ_REG, MONOTONIC_MS and SEND.
  const LOOP_BYTES: seq<Byte> := [0x10, 3, 3, 0, 1, 2, 7, 0x10, 4, 0, 9, 0x21, 3, 4, 5, 7, 8, 8]

  lemma LoopBytes(s: Sensor, channel: int, actPid: int)
    ensures var prog := CompileSensor(s, channel, actPid);
            && |prog| == JumpPc(s) + 5
            && prog[48..66] == LOOP_BYTES
            && prog[66] == (if s.pollMs == 0 then 0x23 else 0x40)
            && (s.pollMs != 0 ==> prog[67] == 6)
  {
    SensorLayout(s, channel, actPid);
    var prog := CompileSensor(s, channel, actPid);
    var pause: seq<Byte> := if s.pollMs == 0 then [0x23] else [0x40, 6];
    assert prog[48..JumpPc(s)] == LOOP_BYTES + pause;
    Slices(prog, 48, 66, JumpPc(s), LOOP_BYTES, pause);
    assert prog[66] == pause[0];
    assert s.pollMs != 0 ==> prog[67] == pause[1];
  }

  lemma Slices(prog: seq<Byte>, a: nat, b: nat, c: nat, left: seq<Byte>, right: seq<Byte>)
    requires a <= b <= c <= |prog| && prog[a..c] == left + right && |left| == b - a
    ensures prog[a..b] == left
    ensures forall i: nat :: i < |right| ==> b + i < |prog| && prog[b + i] == right[i]
  {
    forall i: nat | i < b - a
      ensures prog[a + i] == left[i]
    {
      assert prog[a..c][i] == left[i];
    }
    forall i: nat | i < |right|
      ensures b + i < |prog| && prog[b + i] == right[i]
    {
      assert prog[a..c][b - a + i] == right[i];
    }
  }

  lemma ReadDecodes(prog: seq<Byte>)
    requires |prog| > 66 && prog[48..66] == LOOP_BYTES
    ensures Decode(prog, 48) == Decoded(CallBif(3, [0, 1, 2], 7), 55)
  {
    var b := prog[48..66];
    assert prog[48] == b[0] && prog[49] == b[1] && prog[50] == b[2];
    assert prog[51] == b[3] && prog[52] == b[4] && prog[53] == b[5] && prog[54] == b[6];
    assert FetchRegisters(prog, 54, 0) == Registers([], 54);
    assert FetchRegisters(prog, 53, 1) == Registers([2], 54);
    assert FetchRegisters(prog, 52, 2) == Registers([1, 2], 54);
    assert FetchRegisters(prog, 51, 3) == Registers([0, 1, 2], 54);
  }

  lemma ClockDecodes(prog: seq<Byte>)
    requires |prog| > 66 && prog[48..66] == LOOP_BYTES
    ensures Decode(prog, 55) == Decoded(CallBif(4, [], 9), 59)
  {
    var b := prog[48..66];
    assert prog[55] == b[7] && prog[56] == b[8] && prog[57] == b[9] && prog[58] == b[10];
    assert FetchRegisters(prog, 58, 0) == Registers([], 58);
  }

  lemma SendDecodes(prog: seq<Byte>)
    requires |prog| > 66 && prog[48..66] == LOOP_BYTES
    ensures Decode(prog, 59) == Decoded(Send(3, 4, 5, 7, 8, 8), 66)
  {
    var b := prog[48..66];
    assert prog[59] == b[11];
    assert prog[60..66] == b[12..18] == [3, 4, 5, 7, 8, 8];
  }

  lemma LoopDecodes(s: Sensor, channel: int, actPid: int, pc: nat)
    requires pc == 48 || pc == 55 || pc == 59 || pc == 66 || pc == JumpPc(s)
    ensures Decode(CompileSensor(s, channel, actPid), pc) == SensorInstr(s, channel, actPid, pc)
  {
    var prog := CompileSensor(s, channel, actPid);
    LoopBytes(s, channel, actPid);
    if pc == 48 {
      ReadDecodes(prog);
    } else if pc == 55 {
      ClockDecodes(prog);
    } else if pc == 59 {
      SendDecodes(prog);
    } else if pc == JumpPc(s) {
      SensorLayout(s, channel, actPid);
      JumpDecodes(prog, pc, 48 - (JumpPc(s) + 5));
    }
  }

  function ActuatorInstr(pc: nat): Decoded {
    if pc == 0 then Decoded(RecvCmd(0, 1, 2, 3, 4), 6)
    else if pc == 6 then Decoded(CallBif(2, [1, 2], 5), 12)
    else Decoded(Jmp(-17), 17)
  }

  lemma ActuatorDecodes(pc: nat)
    requires pc == 0 || pc == 6 || pc == 12
    ensures Decode(CompileActuator(), pc) == ActuatorInstr(pc)
  {
    var prog := CompileActuator();
    ActuatorBytes();
    if pc == 0 {
      assert prog[1..6] == [0, 1, 2, 3, 4];
    } else if pc == 6 {
      assert FetchRegisters(prog, 11, 0) == Registers([], 11);
      assert FetchRegisters(prog, 10, 1) == Registers([2], 11);
      assert FetchRegisters(prog, 9, 2) == Registers([1, 2], 11);
    } else {
      assert prog[12..] == [0x30] + I32le(-17);
      JumpDecodes(prog, 12, -17);
    }
  }

  // ---- a sensor process ----

  // What r3 can hold: the actuator's PID, or a status code SEND left there:
  // accepted, duty out of range, mailbox full, no such process.
  predicate SendTarget(w: Word, actPid: int) {
    || w == MakeSmallint(actPid) || w == MakeSmallint(0) || w == MakeSmallint(8)
    || w == MakeSmallint(9) || w == MakeSmallint(11)
  }

  // r3 no longer names a process.
  predicate Spent(p: Proc) {
    && p.c.pc >= 24 && |p.regs| == REG_COUNT
    && (p.regs[3] == MakeSmallint(0) || p.regs[3] == MakeSmallint(9) || p.regs[3] == MakeSmallint(11))
  }

  // The first n constants are loaded, except that r3 is overwritten by SEND.
  ghost predicate LoadedAt(regs: seq<Word>, cs: seq<(Byte, int)>, n: nat, k: nat) {
    k < n && k < |cs| && k != 3 && cs[k].0 < |regs| ==> regs[cs[k].0] == MakeSmallint(cs[k].1)
  }

  ghost predicate Loaded(regs: seq<Word>, cs: seq<(Byte, int)>, n: nat) { forall k: nat :: LoadedAt(regs, cs, n, k) }

  // A sensor process keeps its declared bus, address and register, and stands
  // on an instruction boundary of its program.
  ghost predicate SensorInv(p: Proc, s: Sensor, channel: int, actPid: int) {
    && p.c.program == CompileSensor(s, channel, actPid)
    && ValidSensor(s) && 0 <= channel <= 7 && 2 <= actPid <= 8
    && |p.regs| == REG_COUNT && !p.c.halted && SensorPc(s, p.c.pc)
    && (p.c.state.Ready? || p.c.state.Sleeping?)
    && Loaded(p.regs, SensorConsts(s, channel, actPid), p.c.pc / 6)
    && (p.c.pc >= 24 ==> SendTarget(p.regs[3], actPid))
  }

  // A write outside the constants keeps them loaded.
  lemma LoadedKeeps(regs: seq<Word>, cs: seq<(Byte, int)>, n: nat, n': nat, r: nat, w: Word)
    requires Loaded(regs, cs, n) && r < |regs|
    requires forall k: nat :: k < |cs| && k < n' && k != 3 ==> k < n && cs[k].0 != r
    ensures Loaded(regs[r := w], cs, n')
  {
    var regs' := regs[r := w];
    forall k: nat
      ensures LoadedAt(regs', cs, n', k)
    {
      assert LoadedAt(regs, cs, n, k);
    }
  }

  lemma LoadedNext(regs: seq<Word>, s: Sensor, channel: int, actPid: int, n: nat)
    requires |regs| == REG_COUNT && n < 8 && Loaded(regs, SensorConsts(s, channel, actPid), n)
    ensures var cs := SensorConsts(s, channel, actPid);
            Loaded(regs[cs[n].0 := MakeSmallint(cs[n].1)], cs, n + 1)
  {
    var cs := SensorConsts(s, channel, actPid);
    var regs', n' := regs[cs[n].0 := MakeSmallint(cs[n].1)], n + 1;
    forall k: nat
      ensures LoadedAt(regs', cs, n', k)
    {
      assert LoadedAt(regs, cs, n, k);
    }
  }

  // What one instruction of a sensor does, SEND aside.
  ghost predicate SensorMoved(p: Proc, o: Outcome, s: Sensor, channel: int, actPid: int) {
    && o.Did? && o.status.Ok? && |p.regs| == REG_COUNT && SensorInv(o.p, s, channel, actPid)
    && o.p.c.mailbox == p.c.mailbox
    && (p.c.pc >= 24 ==> o.p.c.pc >= 24 && o.p.regs[3] == p.regs[3])
    && (o.p.c.pc >= 24 && p.c.pc < 24 ==> o.p.regs[3] == MakeSmallint(actPid))
  }

  lemma SensorLoads(p: Proc, s: Sensor, channel: int, actPid: int, io: Io)
    requires SensorInv(p, s, channel, actPid) && p.c.pc < 48
    ensures var (r, v) := SensorConsts(s, channel, actPid)[p.c.pc / 6];
            Step(p, io) == Did(p.(c := p.c.(pc := p.c.pc + 6), regs := p.regs[r := MakeSmallint(v)]), Ok)
  {
    var cs, k := SensorConsts(s, channel, actPid), p.c.pc / 6;
    SensorDecodes(s, channel, actPid, p.c.pc);
    Signed32Keeps28(cs[k].1);
    WriteOne(p.regs, cs[k].0, MakeSmallint(cs[k].1));
  }

  // A constant loaded in order keeps the invariant.
  lemma ConstKeeps(p: Proc, s: Sensor, channel: int, actPid: int)
    requires SensorInv(p, s, channel, actPid) && p.c.pc < 48
    ensures var (r, v) := SensorConsts(s, channel, actPid)[p.c.pc / 6];
            var p' := p.(c := p.c.(pc := p.c.pc + 6), regs := p.regs[r := MakeSmallint(v)]);
            && SensorInv(p', s, channel, actPid)
            && (p.c.pc >= 24 ==> p'.regs[3] == p.regs[3])
            && (p'.c.pc >= 24 && p.c.pc < 24 ==> p'.regs[3] == MakeSmallint(actPid))
  {
    var k := p.c.pc / 6;
    assert p.c.pc == 6 * k && (p.c.pc + 6) / 6 == k + 1;
    LoadedNext(p.regs, s, channel, actPid, k);
  }

  lemma SensorConstStep(p: Proc, s: Sensor, channel: int, actPid: int, io: Io)
    requires SensorInv(p, s, channel, actPid) && p.c.pc < 48
    ensures SensorMoved(p, Step(p, io), s, channel, actPid)
  {
    SensorLoads(p, s, channel, actPid, io);
    ConstKeeps(p, s, channel, actPid);
  }

  // What a driver's answer becomes in a register: the byte, or the status.
  function Reading(io: Io): int { Signed28(if io.rc == 0 then io.value else io.rc) }

  // In the loop, bus, address and register pass the driver's checks, and r7
  // takes the reading.
  lemma SensorReads(p: Proc, s: Sensor, channel: int, actPid: int, io: Io)
    requires SensorInv(p, s, channel, actPid) && p.c.pc == 48
    ensures var w := MakeSmallint(if io.rc == 0 then io.value else io.rc);
            && Step(p, io) == Did(p.(c := p.c.(pc := 55, lastError := Ok), regs := p.regs[7 := w]), Ok)
            && GetSmallint(w) == Reading(io)
  {
    var cs := SensorConsts(s, channel, actPid);
    SensorDecodes(s, channel, actPid, 48);
    assert LoadedAt(p.regs, cs, 8, 0) && LoadedAt(p.regs, cs, 8, 1) && LoadedAt(p.regs, cs, 8, 2);
    SmallintRoundTrip(s.bus); SmallintRoundTrip(s.addr); SmallintRoundTrip(s.reg);
    var r := Bif(p.regs, 3, [0, 1, 2], 7, io);
    assert r.BifValue?;
    SmallintRoundTrip(r.v);
    WriteOne(p.regs, 7, MakeSmallint(r.v));
  }

  // The loop writes no register that the constants need.
  lemma BodyKeeps(p: Proc, s: Sensor, channel: int, actPid: int, pc: nat, r: nat, w: Word)
    requires SensorInv(p, s, channel, actPid) && p.c.pc in {48, 55} && pc in {55, 59} && r in {7, 9}
    ensures var p' := p.(c := p.c.(pc := pc, lastError := Ok), regs := p.regs[r := w]);
            SensorInv(p', s, channel, actPid) && p'.regs[3] == p.regs[3]
  {
    assert p.c.pc / 6 >= 8 && pc / 6 == 9;
    LoadedKeeps(p.regs, SensorConsts(s, channel, actPid), p.c.pc / 6, 9, r, w);
  }

  lemma SensorReadStep(p: Proc, s: Sensor, channel: int, actPid: int, io: Io)
    requires SensorInv(p, s, channel, actPid) && p.c.pc == 48
    ensures SensorMoved(p, Step(p, io), s, channel, actPid)
  {
    SensorReads(p, s, channel, actPid, io);
    BodyKeeps(p, s, channel, actPid, 55, 7, MakeSmallint(if io.rc == 0 then io.value else io.rc));
  }

  lemma SensorClocks(p: Proc, s: Sensor, channel: int, actPid: int, io: Io)
    requires SensorInv(p, s, channel, actPid) && p.c.pc == 55
    ensures Step(p, io) ==
              Did(p.(c := p.c.(pc := 59, lastError := Ok), regs := p.regs[9 := MakeSmallint(io.now)]), Ok)
  {
    SensorDecodes(s, channel, actPid, 55);
    WriteOne(p.regs, 9, MakeSmallint(io.now));
  }

  lemma SensorClockStep(p: Proc, s: Sensor, channel: int, actPid: int, io: Io)
    requires SensorInv(p, s, channel, actPid) && p.c.pc == 55
    ensures SensorMoved(p, Step(p, io), s, channel, actPid)
  {
    SensorClocks(p, s, channel, actPid, io);
    BodyKeeps(p, s, channel, actPid, 59, 9, MakeSmallint(io.now));
  }

  lemma LoadedSame(regs: seq<Word>, cs: seq<(Byte, int)>, n: nat, n': nat)
    requires Loaded(regs, cs, n) && (n' <= n || n >= |cs|)
    ensures Loaded(regs, cs, n')
  {
    forall k: nat
      ensures LoadedAt(regs, cs, n', k)
    {
      assert LoadedAt(regs, cs, n, k);
    }
  }

  lemma SensorPauseStep(p: Proc, s: Sensor, channel: int, actPid: int, io: Io)
    requires SensorInv(p, s, channel, actPid) && p.c.pc == 66
    ensures SensorMoved(p, Step(p, io), s, channel, actPid)
  {
    SensorDecodes(s, channel, actPid, 66);
    LoadedSame(p.regs, SensorConsts(s, channel, actPid), 11, 11);
    assert WriteAll(p.regs, []) == p.regs;
  }

  lemma SensorJumps(p: Proc, s: Sensor, channel: int, actPid: int, io: Io)
    requires SensorInv(p, s, channel, actPid) && p.c.pc == JumpPc(s)
    ensures Step(p, io) == Did(p.(c := p.c.(pc := 48)), Ok)
  {
    SensorDecodes(s, channel, actPid, p.c.pc);
    LoopBytes(s, channel, actPid);
    assert WriteAll(p.regs, []) == p.regs;
  }

  lemma JumpKeeps(p: Proc, s: Sensor, channel: int, actPid: int)
    requires SensorInv(p, s, channel, actPid) && p.c.pc == JumpPc(s)
    ensures SensorInv(p.(c := p.c.(pc := 48)), s, channel, actPid)
  {
    assert p.c.pc / 6 == 11;
    LoadedSame(p.regs, SensorConsts(s, channel, actPid), 11, 8);
  }

  lemma SensorJumpStep(p: Proc, s: Sensor, channel: int, actPid: int, io: Io)
    requires SensorInv(p, s, channel, actPid) && p.c.pc == JumpPc(s)
    ensures SensorMoved(p, Step(p, io), s, channel, actPid)
  {
    SensorJumps(p, s, channel, actPid, io);
    JumpKeeps(p, s, channel, actPid);
  }

  lemma SensorStep(p: Proc, s: Sensor, channel: int, actPid: int, io: Io)
    requires SensorInv(p, s, channel, actPid) && p.c.pc != 59
    ensures SensorMoved(p, Step(p, io), s, channel, actPid)
  {
    if p.c.pc < 48 { SensorConstStep(p, s, channel, actPid, io); }
    else if p.c.pc == 48 { SensorReadStep(p, s, channel, actPid, io); }
    else if p.c.pc == 55 { SensorClockStep(p, s, channel, actPid, io); }
    else if p.c.pc == 66 { SensorPauseStep(p, s, channel, actPid, io); }
    else { SensorJumpStep(p, s, channel, actPid, io); }
  }

  lemma TargetValues(w: Word, actPid: int)
    requires SendTarget(w, actPid) && 0 <= actPid <= 8
    ensures GetSmallint(w) in {actPid, 0, 8, 9, 11}
  {
    SmallintRoundTrip(actPid);
    SmallintRoundTrip(0); SmallintRoundTrip(8); SmallintRoundTrip(9); SmallintRoundTrip(11);
  }

  // The constants of the command that SEND offers.
  lemma DutyFields(regs: seq<Word>, s: Sensor, channel: int, actPid: int)
    requires |regs| == REG_COUNT && Loaded(regs, SensorConsts(s, channel, actPid), 9) && 0 <= channel <= 7
    ensures IntAt(regs, 4) == 2 && IntAt(regs, 5) == channel && IntAt(regs, 8) == 0
  {
    var cs := SensorConsts(s, channel, actPid);
    assert LoadedAt(regs, cs, 9, 4) && LoadedAt(regs, cs, 9, 5) && LoadedAt(regs, cs, 9, 7);
    SmallintRoundTrip(2); SmallintRoundTrip(channel); SmallintRoundTrip(0);
  }

  // SEND offers the last reading as a duty for the flow's channel, to the
  // process r3 names.
  lemma SensorSends(p: Proc, s: Sensor, channel: int, actPid: int, io: Io)
    requires SensorInv(p, s, channel, actPid) && p.c.pc == 59
    ensures Step(p, io) ==
            Sends(p.(c := p.c.(pc := 66)), 3, IntAt(p.regs, 3),
              Command(CMD_PWM_SET_DUTY, channel, IntAt(p.regs, 7), 0, 0))
    ensures IntAt(p.regs, 3) in {actPid, 0, 8, 9, 11}
  {
    SensorDecodes(s, channel, actPid, 59);
    DutyFields(p.regs, s, channel, actPid);
    TargetValues(p.regs[3], actPid);
  }

  // The sensor after the reply to its SEND.
  lemma SensorReplied(p: Proc, s: Sensor, channel: int, actPid: int, st: Status)
    requires SensorInv(p, s, channel, actPid) && p.c.pc == 66 && st in {Ok, BadArgument, MailboxFull, BadPid}
    ensures var p' := p.(regs := WriteAll(p.regs, [Write(3, MakeSmallint(st.Code()))]));
            && SensorInv(p', s, channel, actPid)
            && (Spent(p') <==> !st.BadArgument?)
  {
    WriteOne(p.regs, 3, MakeSmallint(st.Code()));
    LoadedKeeps(p.regs, SensorConsts(s, channel, actPid), 11, 11, 3, MakeSmallint(st.Code()));
  }

  // ---- the actuator process ----

  // The only commands sensors send: a duty in range for the flow's channel.
  predicate IsDuty(cmd: Command, channel: int) {
    cmd == Command(CMD_PWM_SET_DUTY, channel, cmd.b, 0, 0) && ValidPwmDuty(cmd.b)
  }

  // The PWM call accepts what RECV_CMD makes of the command, whatever its kind.
  predicate Bearable(cmd: Command) { ValidPwmChannel(Signed28(cmd.a)) && ValidPwmDuty(Signed28(cmd.b)) }

  ghost predicate ActuatorInv(p: Proc) {
    && p.c.program == CompileActuator()
    && |p.regs| == REG_COUNT && !p.c.halted
    && (p.c.pc == 0 || p.c.pc == 6 || p.c.pc == 12)
    && (p.c.state.Ready? || p.c.state.Waiting?)
    && p.c.mailbox.Valid()
  }

  // r1 and r2 hold what the PWM call is about to take from the command.
  predicate Holds(regs: seq<Word>, cmd: Command) {
    |regs| == REG_COUNT && IntAt(regs, 1) == Signed28(cmd.a) && IntAt(regs, 2) == Signed28(cmd.b)
  }

  lemma TakesCommand(regs: seq<Word>, cmd: Command)
    requires |regs| == REG_COUNT
    ensures Holds(WriteAll(regs, TagCommand(RecvCmd(0, 1, 2, 3, 4), cmd.kind, cmd.a, cmd.b, cmd.c, cmd.d)), cmd)
  {
    WriteFive(regs, TagCommand(RecvCmd(0, 1, 2, 3, 4), cmd.kind, cmd.a, cmd.b, cmd.c, cmd.d));
    SmallintRoundTrip(cmd.a);
    SmallintRoundTrip(cmd.b);
  }

  // RECV_CMD: take the oldest command, or wait.
  lemma ActuatorReceives(p: Proc, io: Io)
    requires ActuatorInv(p) && p.c.pc == 0
    ensures var o, q := Step(p, io), p.c.mailbox.Contents();
            && o.Did? && o.status.Ok? && ActuatorInv(o.p) && o.p.c.reductions == p.c.reductions
            && (q == [] ==> o.p == p.(c := p.c.(state := Waiting)))
            && (q != [] ==>
                  && o.p.c.pc == 6 && o.p.c.state == p.c.state && Holds(o.p.regs, q[0])
                  && RingPop(p.c.mailbox) == Popped(o.p.c.mailbox, q[0]) && o.p.c.mailbox.Contents() == q[1..])
  {
    ActuatorDecodes(0);
    PopTakesOldest(p.c.mailbox);
    if p.c.mailbox.Contents() != [] {
      TakesCommand(p.regs, p.c.mailbox.Contents()[0]);
    } else {
      assert WriteAll(p.regs, []) == p.regs;
    }
  }

  // The PWM call: it succeeds exactly when channel and duty are in range, and
  // the process goes on either way.
  lemma ActuatorCalls(p: Proc, io: Io)
    requires ActuatorInv(p) && p.c.pc == 6
    ensures var o := Step(p, io);
            && o.Did? && ActuatorInv(o.p) && o.p.c == p.c.(pc := 12, lastError := o.status)
            && o.status == if ValidPwmChannel(IntAt(p.regs, 1)) && ValidPwmDuty(IntAt(p.regs, 2)) then Ok
                 else BadArgument
  {
    ActuatorDecodes(6);
    WriteOne(p.regs, 5, MakeSmallint(io.rc));
  }

  lemma ActuatorJumps(p: Proc, io: Io)
    requires ActuatorInv(p) && p.c.pc == 12
    ensures Step(p, io) == Did(p.(c := p.c.(pc := 0)), Ok) && ActuatorInv(p.(c := p.c.(pc := 0)))
  {
    ActuatorDecodes(12);
    ActuatorBytes();
    assert WriteAll(p.regs, []) == p.regs;
  }
}
