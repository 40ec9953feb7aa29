// The pause between two readings of a sensor, and what validation lets
// through: the poll interval and the ranges of a flow, as the devices see
// them.
module FlowPauses {
  import opened Term
  import opened Commands
  import opened Bytecode
  import opened Machine
  import opened System
  import opened Scheduling
  import opened Progress
  import opened Messages
  import opened Meanings
  import opened Delays
  import opened FlowCompiler
  import opened FlowProcesses
  import opened FlowRuns
  import opened FlowHistories

  // ---- the constants of a sensor ----

  // In its loop a sensor shows its declared device, the command it sends, the
  // flow's channel, and the poll interval in signed 28 bits.
  lemma SensorRegisters(s: Sys, t: Trace, f: Flow, i: nat)
    requires FlowInv(s, t, f) && i < |f.sensors| && s.procs[i].c.pc >= 48
    ensures var regs, d := s.procs[i].regs, f.sensors[i];
            && |regs| == 16
            && IntAt(regs, 0) == d.bus && IntAt(regs, 1) == d.addr && IntAt(regs, 2) == d.reg
            && IntAt(regs, 4) == 2 && IntAt(regs, 5) == f.flows[0].to.channel && IntAt(regs, 8) == 0
            && IntAt(regs, 6) == Signed28(d.pollMs)
  {
    assert SensorAt(s, t, f, Channel(f), i);
    ConstantsLoaded(s.procs[i], f.sensors[i], Channel(f), ActuatorPid(f));
  }

  lemma ConstantsLoaded(p: Proc, s: Sensor, channel: int, actPid: int)
    requires SensorInv(p, s, channel, actPid) && p.c.pc >= 48
    ensures IntAt(p.regs, 0) == s.bus && IntAt(p.regs, 1) == s.addr && IntAt(p.regs, 2) == s.reg
    ensures IntAt(p.regs, 4) == 2 && IntAt(p.regs, 5) == channel && IntAt(p.regs, 8) == 0
    ensures IntAt(p.regs, 6) == Signed28(s.pollMs)
  {
    var cs, n := SensorConsts(s, channel, actPid), p.c.pc / 6;
    assert LoadedAt(p.regs, cs, n, 0) && LoadedAt(p.regs, cs, n, 1) && LoadedAt(p.regs, cs, n, 2);
    assert LoadedAt(p.regs, cs, n, 4) && LoadedAt(p.regs, cs, n, 5) && LoadedAt(p.regs, cs, n, 6);
    assert LoadedAt(p.regs, cs, n, 7);
    SmallintRoundTrip(s.bus); SmallintRoundTrip(s.addr); SmallintRoundTrip(s.reg);
    SmallintRoundTrip(2); SmallintRoundTrip(channel); SmallintRoundTrip(s.pollMs); SmallintRoundTrip(0);
  }

  // ---- the pause ----

  // Sensor i, in its slice, is about to pause.
  ghost predicate Pausing(s: Sys, t: Trace, f: Flow, i: nat) {
    && FlowInv(s, t, f) && i < |f.sensors| && GoesOn(s, i, 64)
    && s.procs[i].c.state.Ready? && s.procs[i].c.pc == 66
  }

  // The clock that the pause reads.
  function ClockAt(s: Sys, i: nat, hal: nat -> Io): Word
    requires i < |s.procs|
  {
    hal(s.procs[i].c.reductions).now
  }

  // The intervals that survive the 28 bits of r6 and the 32 bits of the clock.
  predicate Keepable(pollMs: int) { 0 < pollMs < 0x800_0000 || 0xF800_0000 <= pollMs < 0x1_0000_0000 }

  // A pausing sensor is at a SLEEP_MS, and its deadline is the declared one,
  // the clock plus the interval, exactly if the clock does not wrap before and
  // the interval is keepable; validation admits others.
  lemma PauseIsSleep(s: Sys, t: Trace, f: Flow, i: nat, hal: nat -> Io)
    requires Pausing(s, t, f, i) && f.sensors[i].pollMs > 0
    ensures AtSleep(s, t, i, SleepMs(6))
    ensures var clock, poll := ClockAt(s, i, hal), f.sensors[i].pollMs;
            Deadline(s, i, SleepMs(6), hal) == clock + poll <==> Keepable(poll) && clock + poll < 0x1_0000_0000
  {
    assert SensorAt(s, t, f, Channel(f), i);
    SensorDecodes(f.sensors[i], Channel(f), ActuatorPid(f), 66);
    SensorRegisters(s, t, f, i);
    DeclaredDeadline(ClockAt(s, i, hal), f.sensors[i].pollMs);
  }

  lemma DeclaredDeadline(clock: Word, poll: int)
    requires poll > 0
    ensures (clock + Signed28(poll)) % 0x1_0000_0000 == clock + poll <==>
              Keepable(poll) && clock + poll < 0x1_0000_0000
  {
    if clock + poll < 0x1_0000_0000 {
      var k := (poll - Signed28(poll)) / 0x1000_0000;
      assert poll == Signed28(poll) + k * 0x1000_0000 && 0 <= k <= 16;
      Multiples(clock + poll, k);
    }
  }

  lemma Multiples(n: int, k: int)
    requires 0 <= n < 0x1_0000_0000 && 0 <= k <= 16
    ensures (n - k * 0x1000_0000) % 0x1_0000_0000 == n <==> k == 0 || k == 16
  {
  }

  // An interval of 2^27 ms, although valid, is no pause at all once the clock
  // has passed 2^27: the next tick finds the sensor due.
  lemma LongIntervalIsNoPause(s: Sys, t: Trace, f: Flow, i: nat, hal: nat -> Io, hal': nat -> Io)
      returns (s1: Sys, tick: Ran)
    requires Pausing(s, t, f, i) && f.sensors[i].pollMs == 0x800_0000 && ClockAt(s, i, hal) >= 0x800_0000
    ensures Loop(Machine.Step, s, i, 64, hal, t) == Ran(s1, Ok, Then(t, Plain(i))) && |s1.procs| == SLOTS
    ensures tick == Act(Machine.Step, s1, DoTick(ClockAt(s, i, hal), hal'), Then(t, Plain(i)))
    ensures tick.Ran? && |tick.s.procs| == SLOTS
    ensures tick.s.procs[i].c.state.Ready? || Dispatches(tick.trace, i) == Dispatches(Then(t, Plain(i)), i) + 1
  {
    PauseIsSleep(s, t, f, i, hal);
    SensorRegisters(s, t, f, i);
    var r;
    s1, r, tick := SleepEnds(s, t, i, SleepMs(6), hal, [], ClockAt(s, i, hal), hal', []);
    FlowGoesOn(s, t, f, i, hal, s1, [], r);
    var last := TickGoesOn(s1, Then(t, Plain(i)), f, ClockAt(s, i, hal), hal', [], tick);
  }

  // A sensor with a poll interval pauses for that long: no tick that reads a
  // clock before its own plus the interval dispatches it, so it executes
  // nothing and reads no device, whatever is sent to whomever.
  lemma PollPauses(s: Sys, t: Trace, f: Flow, i: nat, hal: nat -> Io, acts: seq<Action>) returns (s1: Sys, r: Ran)
    requires Pausing(s, t, f, i) && Keepable(f.sensors[i].pollMs)
    requires ClockAt(s, i, hal) + f.sensors[i].pollMs < 0x1_0000_0000
    requires NoSpawns(acts)
    requires forall k :: 0 <= k < |acts| && acts[k].DoTick? ==> acts[k].now < ClockAt(s, i, hal) + f.sensors[i].pollMs
    ensures Loop(Machine.Step, s, i, 64, hal, t) == Ran(s1, Ok, Then(t, Plain(i)))
    ensures |s1.procs| == SLOTS && r == Perform(Machine.Step, s1, acts, Then(t, Plain(i))) && r.Ran?
    ensures FlowInv(r.s, r.trace, f) && Idle(s1, Then(t, Plain(i)), r.s, r.trace, i)
  {
    PauseIsSleep(s, t, f, i, hal);
    s1, r := SleepLasts(s, t, i, SleepMs(6), hal, acts);
    FlowGoesOn(s, t, f, i, hal, s1, acts, r);
  }

  // A slice of one more instruction, then a history.
  lemma FlowGoesOn(s: Sys, t: Trace, f: Flow, i: nat, hal: nat -> Io, s1: Sys, acts: seq<Action>, r: Ran)
    requires FlowInv(s, t, f) && i < SLOTS && s.procs[i].c.state.Ready? && NoSpawns(acts)
    requires Loop(Machine.Step, s, i, 64, hal, t) == Ran(s1, Ok, Then(t, Plain(i))) && |s1.procs| == SLOTS
    requires r == Perform(Machine.Step, s1, acts, Then(t, Plain(i)))
    ensures r.Ran? && FlowInv(r.s, r.trace, f)
  {
    ghost var m: Stepper := Machine.Step;
    MachineRunsFlow(f);
    var s', st, t' := FlowLoop(m, s, t, f, i, hal, Ran(s1, Ok, Then(t, Plain(i))));
    var s2, t2, good := FlowRun(m, s1, Then(t, Plain(i)), f, acts);
  }

  // The first tick at or after that time dispatches it, or leaves it READY,
  // and eight more ticks dispatch it for sure.
  lemma PollResumes(s: Sys, t: Trace, f: Flow, i: nat, hal: nat -> Io, acts: seq<Action>, now: Word,
      hal': nat -> Io, later: seq<Action>) returns (s1: Sys, r: Ran, tick: Ran, last: Ran)
    requires Pausing(s, t, f, i) && Keepable(f.sensors[i].pollMs)
    requires ClockAt(s, i, hal) + f.sensors[i].pollMs <= now
    requires NoSpawns(acts) && NoSpawns(later) && Ticks(later) >= 8
    requires forall k :: 0 <= k < |acts| && acts[k].DoTick? ==> acts[k].now < ClockAt(s, i, hal) + f.sensors[i].pollMs
    ensures Loop(Machine.Step, s, i, 64, hal, t) == Ran(s1, Ok, Then(t, Plain(i)))
    ensures |s1.procs| == SLOTS && r == Perform(Machine.Step, s1, acts, Then(t, Plain(i))) && r.Ran?
    ensures |r.s.procs| == SLOTS && tick == Act(Machine.Step, r.s, DoTick(now, hal'), r.trace) && tick.Ran?
    ensures |tick.s.procs| == SLOTS && last == Perform(Machine.Step, tick.s, later, tick.trace) && last.Ran?
    ensures tick.s.procs[i].c.state.Ready? || Dispatches(tick.trace, i) == Dispatches(r.trace, i) + 1
    ensures Dispatches(last.trace, i) > Dispatches(r.trace, i)
  {
    PauseIsSleep(s, t, f, i, hal);
    s1, r, tick := SleepEnds(s, t, i, SleepMs(6), hal, acts, now, hal', later);
    FlowGoesOn(s, t, f, i, hal, s1, acts, r);
    last := TickGoesOn(r.s, r.trace, f, now, hal', later, tick);
  }

  lemma TickGoesOn(s: Sys, t: Trace, f: Flow, now: Word, hal: nat -> Io, later: seq<Action>, tick: Ran)
      returns (last: Ran)
    requires FlowInv(s, t, f) && NoSpawns(later) && tick == Act(Machine.Step, s, DoTick(now, hal), t)
    ensures tick.Ran? && |tick.s.procs| == SLOTS
    ensures last == Perform(Machine.Step, tick.s, later, tick.trace) && last.Ran?
  {
    ghost var m: Stepper := Machine.Step;
    MachineRunsFlow(f);
    var s1, st, t1 := FlowAct(m, s, t, f, DoTick(now, hal));
    var s2, t2, good := FlowRun(m, s1, t1, f, later);
    last := Perform(m, s1, later, t1);
  }

  // A sensor with poll interval 0 only gives up the rest of its slice: it
  // stays READY.
  lemma PollYields(s: Sys, t: Trace, f: Flow, i: nat, hal: nat -> Io) returns (s1: Sys)
    requires Pausing(s, t, f, i) && f.sensors[i].pollMs == 0
    ensures Loop(Machine.Step, s, i, 64, hal, t) == Ran(s1, Ok, Then(t, Plain(i)))
    ensures |s1.procs| == SLOTS && s1.procs[i].c.state.Ready? && s1.procs[i].c.pc == 67
    ensures s1.procs[i].regs == s.procs[i].regs
  {
    ghost var m: Stepper := Machine.Step;
    assert SensorAt(s, t, f, Channel(f), i);
    SensorDecodes(f.sensors[i], Channel(f), ActuatorPid(f), 66);
    YieldExhausts(s.procs[i], Yield, hal(s.procs[i].c.reductions));
    var p' := Machine.Step(s.procs[i], hal(s.procs[i].c.reductions)).p;
    s1 := YieldEnds(m, s, t, i, hal, p');
  }

  lemma YieldEnds(m: Stepper, s: Sys, t: Trace, i: nat, hal: nat -> Io, p': Proc) returns (s1: Sys)
    requires GoesOn(s, i, REDUCTIONS) && m(s.procs[i], hal(s.procs[i].c.reductions)) == Did(p', Ok)
    requires p'.c.state.Ready? && p'.c.reductions == REDUCTIONS && p'.c.mailbox == s.procs[i].c.mailbox
    ensures Loop(m, s, i, REDUCTIONS, hal, t) == Ran(s1, Ok, Then(t, Plain(i)))
    ensures |s1.procs| == SLOTS && s1.procs[i] == p'.(c := p'.c.(reductions := REDUCTIONS + 1))
  {
    var s' := s.(procs := s.procs[i := p']);
    LoopStep(m, s, t, i, REDUCTIONS, hal, s', Ok, Plain(i));
    s1 := SetBudget(s', i, REDUCTIONS + 1);
  }

  // ---- validation ----

  // A process whose first registers show the device of a sensor, about to
  // call the driver as every compiled sensor does.
  predicate AboutToRead(p: Proc, s: Sensor) {
    && Stands(p, CallBif(3, [0, 1, 2], 7))
    && IntAt(p.regs, 0) == s.bus && IntAt(p.regs, 1) == s.addr && IntAt(p.regs, 2) == s.reg
  }

  // Validation accepts a sensor exactly when its interval is not negative and
  // the driver call made for it does not fail: the flow's ranges are the
  // machine's.
  lemma ValidSensorExactly(s: Sensor, p: Proc, io: Io)
    requires AboutToRead(p, s)
    ensures ValidSensor(s) <==> s.pollMs >= 0 && Step(p, io).Did? && Step(p, io).status.Ok?
  {
    BifAnswers(p, CallBif(3, [0, 1, 2], 7), io);
  }

  // A sensor whose device does not fit a register is refused.
  lemma WideSensorIsInvalid(s: Sensor)
    requires exists v :: v in [s.bus, s.addr, s.reg] && !(SMALLINT_MIN <= v <= SMALLINT_MAX)
    ensures !ValidSensor(s)
  {
  }

  // And an actuator exactly when the driver takes its channel.
  lemma ValidActuatorExactly(a: Actuator, p: Proc, io: Io)
    requires a.Pwm? && Stands(p, CallBif(2, [1, 2], 5))
    requires IntAt(p.regs, 1) == a.channel && IntAt(p.regs, 2) == 0
    ensures ValidActuator(a) <==> Step(p, io).Did? && Step(p, io).status.Ok?
  {
    BifAnswers(p, CallBif(2, [1, 2], 5), io);
  }

  // What validation says of the rest: routes lead from a declared address to
  // a declared channel, so every valid flow that has a route compiles for a
  // channel that some actuator has.
  lemma ValidFlowCompiles(f: Flow)
    requires ValidFlow(f) && f.flows != []
    ensures CompileFlow(f).Compiled? && |CompileFlow(f).sensorProgs| == |f.sensors|
    ensures exists k :: 0 <= k < |f.actuators| && f.actuators[k] == Pwm(f.flows[0].to.channel)
    ensures exists k :: 0 <= k < |f.sensors| && f.sensors[k].addr == f.flows[0].from
    ensures forall k :: 0 <= k < |f.sensors| ==>
              CompileFlow(f).sensorProgs[k] == CompileSensor(f.sensors[k], f.flows[0].to.channel, |f.sensors| + 1)
  {
    assert ValidRoute(f.flows[0], f.sensors, f.actuators);
  }

  // Everything that makes a flow invalid, and nothing else does.
  lemma InvalidFlowExactly(f: Flow)
    ensures !ValidFlow(f) <==>
              || (exists d :: d in f.sensors &&
                    (d.bus !in {0, 1, 2, 3} || !(0 <= d.addr < 128) || !(0 <= d.reg < 256) || d.pollMs < 0))
              || (exists a :: a in f.actuators && (a.OtherActuator? || !(0 <= a.channel < 8)))
              || (exists w :: w in f.flows &&
                    (w.to.OtherTarget?
                     || (forall d :: d in f.sensors ==> d.addr != w.from) || Pwm(w.to.channel) !in f.actuators))
              || f.policy.mailboxDepth <= 0 || f.policy.watchdogMs <= 0 || f.policy.onFail == OtherMode
  {
    if !ValidFlow(f) {
      if k :| 0 <= k < |f.sensors| && !ValidSensor(f.sensors[k]) { assert f.sensors[k] in f.sensors; }
      if k :| 0 <= k < |f.actuators| && !ValidActuator(f.actuators[k]) { assert f.actuators[k] in f.actuators; }
      if k :| 0 <= k < |f.flows| && !ValidRoute(f.flows[k], f.sensors, f.actuators) {
        var w := f.flows[k];
        assert w in f.flows;
        if w.to.ToPwm? && Pwm(w.to.channel) in f.actuators {
          var a :| 0 <= a < |f.actuators| && f.actuators[a] == Pwm(w.to.channel);
          assert f.actuators[a].Pwm? && f.actuators[a].channel == w.to.channel;
        }
      }
    } else {
      forall w | w in f.flows
        ensures w.to.ToPwm? && (exists d :: d in f.sensors && d.addr == w.from) && Pwm(w.to.channel) in f.actuators
      {
        var k :| 0 <= k < |f.flows| && f.flows[k] == w;
        assert ValidRoute(f.flows[k], f.sensors, f.actuators);
        var d :| 0 <= d < |f.sensors| && f.sensors[d].addr == w.from;
        assert f.sensors[d] in f.sensors;
        var a :| 0 <= a < |f.actuators| && f.actuators[a].Pwm? && f.actuators[a].channel == w.to.channel;
        assert f.actuators[a] == Pwm(w.to.channel);
      }
    }
  }
}
