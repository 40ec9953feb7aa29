// Readings get through: within eight ticks of the start every sensor has
// offered its first reading, and what is accepted follows from what it offers.
module FlowDelivery {
  import opened Term
  import opened Commands
  import opened Machine
  import opened System
  import opened Scheduling
  import opened Progress
  import opened Messages
  import opened FlowCompiler
  import opened FlowProcesses
  import opened FlowTraces
  import opened FlowRuns
  import opened FlowHistories

  // ---- the first pass through a sensor's program ----

  // The address of the k-th instruction: eight constants, read, clock, SEND.
  function PassPc(k: nat): nat {
    if k <= 8 then 6 * k else if k == 9 then 55 else 59
  }

  // The sensor is about to execute its k-th instruction ever; r3 names the
  // actuator and r7 holds the reading once they are set.
  ghost predicate OnPass(p: Proc, s: Sensor, channel: int, actPid: int, k: nat, reading: int) {
    && SensorInv(p, s, channel, actPid) && p.c.state.Ready? && k <= 10
    && p.c.pc == PassPc(k) && p.c.reductions == k
    && (k >= 4 ==> p.regs[3] == MakeSmallint(actPid))
    && (k >= 9 ==> IntAt(p.regs, 7) == reading)
  }

  function NextOf(p: Proc): Proc { p.(c := p.c.(reductions := p.c.reductions + 1)) }

  // One instruction before the SEND.
  ghost predicate Passes(p: Proc, o: Outcome, s: Sensor, channel: int, actPid: int, k: nat, reading: int) {
    && o.Did? && o.status.Ok? && o.p.c.mailbox == p.c.mailbox
    && OnPass(NextOf(o.p), s, channel, actPid, k + 1, reading)
  }

  lemma ConstPasses(p: Proc, s: Sensor, channel: int, actPid: int, io: Io, k: nat, reading: int)
    requires OnPass(p, s, channel, actPid, k, reading) && k < 8
    ensures Passes(p, Step(p, io), s, channel, actPid, k, reading)
  {
    assert p.c.pc / 6 == k;
    SensorLoads(p, s, channel, actPid, io);
    ConstKeeps(p, s, channel, actPid);
  }

  lemma BodyPasses(p: Proc, s: Sensor, channel: int, actPid: int, io: Io, k: nat, reading: int)
    requires OnPass(p, s, channel, actPid, k, reading) && k in {8, 9}
    requires k == 8 ==> reading == Reading(io)
    ensures Passes(p, Step(p, io), s, channel, actPid, k, reading)
  {
    if k == 8 {
      SensorReads(p, s, channel, actPid, io);
      BodyKeeps(p, s, channel, actPid, 55, 7, MakeSmallint(if io.rc == 0 then io.value else io.rc));
    } else {
      SensorClocks(p, s, channel, actPid, io);
      BodyKeeps(p, s, channel, actPid, 59, 9, MakeSmallint(io.now));
    }
  }

  // ---- the pass in the system ----

  ghost predicate Passing(s: Sys, t: Trace, f: Flow, i: nat, k: nat, reading: int) {
    && FlowInv(s, t, f) && i < |f.sensors| && Offers(t, i) == []
    && OnPass(s.procs[i], f.sensors[i], Channel(f), ActuatorPid(f), k, reading)
  }

  // m takes a passing sensor to its next instruction, and to its SEND.
  ghost predicate PassesAt(m: Stepper, s: Sys, t: Trace, f: Flow, i: nat, k: nat, reading: int, io: Io) {
    Passing(s, t, f, i, k, reading) && (k == 8 ==> reading == Reading(io)) ==>
      var r := StepSlot(m, s, i, io);
      && r.Stepped?
      && if k < 10
         then r.status.Ok? && r.s.procs[i].c.state.Ready? && r.s.procs[i].c.reductions == k
              && Passing(SetBudget(r.s, i, k + 1), Then(t, r.ev), f, i, k + 1, reading)
         else (r.ev.Sent? || r.ev.Bounced?) && r.ev.slot == i && r.ev.cmd == Duty(Channel(f), reading)
  }

  ghost predicate PassesThrough(m: Stepper, f: Flow, i: nat, reading: int) {
    forall s, t, k: nat, io :: PassesAt(m, s, t, f, i, k, reading, io)
  }

  lemma MachinePasses(f: Flow, i: nat, reading: int)
    ensures PassesThrough(Machine.Step, f, i, reading)
  {
    forall s, t, k: nat, io
      ensures PassesAt(Machine.Step, s, t, f, i, k, reading, io)
    {
      if Passing(s, t, f, i, k, reading) && (k == 8 ==> reading == Reading(io)) {
        if k < 10 {
          PassStep(s, t, f, i, k, reading, io);
        } else {
          SendIsAccepted(s, t, f, i, io);
        }
      }
    }
  }

  lemma PassOutcome(p: Proc, s: Sensor, channel: int, actPid: int, io: Io, k: nat, reading: int) returns (p': Proc)
    requires OnPass(p, s, channel, actPid, k, reading) && k < 10 && (k == 8 ==> reading == Reading(io))
    ensures Step(p, io) == Did(p', Ok) && p'.c.mailbox == p.c.mailbox && p.c.pc != 59
    ensures OnPass(NextOf(p'), s, channel, actPid, k + 1, reading)
  {
    if k < 8 {
      ConstPasses(p, s, channel, actPid, io, k, reading);
    } else {
      BodyPasses(p, s, channel, actPid, io, k, reading);
    }
    p' := Step(p, io).p;
  }

  lemma PassStep(s: Sys, t: Trace, f: Flow, i: nat, k: nat, reading: int, io: Io)
    requires Passing(s, t, f, i, k, reading) && k < 10 && (k == 8 ==> reading == Reading(io))
    ensures var r := StepSlot(Machine.Step, s, i, io);
            && r.Stepped? && r.status.Ok? && r.s.procs[i].c.state.Ready? && r.s.procs[i].c.reductions == k
            && Passing(SetBudget(r.s, i, k + 1), Then(t, r.ev), f, i, k + 1, reading)
  {
    var p' := PassOutcome(s.procs[i], f.sensors[i], Channel(f), ActuatorPid(f), io, k, reading);
    QuietStep(Machine.Step, s, i, io, p', Ok);
    SensorMoves(s, t, f, i, io);
    QuietEvent(t, Plain(i), i, |f.sensors|);
    PassKeeps(s.(procs := s.procs[i := p']), Then(t, Plain(i)), f, i, k, reading);
  }

  lemma PassKeeps(s: Sys, t: Trace, f: Flow, i: nat, k: nat, reading: int)
    requires FlowInv(s, t, f) && i < |f.sensors| && Offers(t, i) == []
    requires OnPass(NextOf(s.procs[i]), f.sensors[i], Channel(f), ActuatorPid(f), k + 1, reading)
    ensures Passing(SetBudget(s, i, k + 1), t, f, i, k + 1, reading)
  {
    FlowBudget(s, t, f, i, k + 1);
    assert SetBudget(s, i, k + 1).procs[i] == NextOf(s.procs[i]);
  }

  lemma {:induction false} OffersStay(t: Trace, t': Trace, i: nat)
    requires Extends(t, t')
    ensures Offers(t, i) <= Offers(t', i)
    decreases t'
  {
    if t' != t {
      OffersStay(t, t'.before, i);
    }
  }

  // The slice of another process adds no offers of i.
  lemma {:induction false} OffersElsewhere(t: Trace, t': Trace, k: nat, n: nat, i: nat)
    requires Continues(t, t', k, n) && k != i
    ensures Offers(t', i) == Offers(t, i)
    decreases t'
  {
    if !(t' == t && n == 0) {
      OffersElsewhere(t, t'.before, k, n - 1, i);
    }
  }

  // What an instruction did stays in the trace of the loop.
  lemma StepHappens(m: Stepper, s: Sys, t: Trace, i: nat, hal: nat -> Io, r: Ran)
    requires GoesOn(s, i, REDUCTIONS) && r == Loop(m, s, i, REDUCTIONS, hal, t) && r.Ran?
    ensures StepSlot(m, s, i, hal(s.procs[i].c.reductions)).Stepped?
    ensures Extends(Then(t, StepSlot(m, s, i, hal(s.procs[i].c.reductions)).ev), r.trace)
  {
    var step := LoopGoesOn(m, s, t, i, REDUCTIONS, hal, r);
    if step.status.Ok? && step.s.procs[i].c.state.Ready? {
      var next := SetBudget(step.s, i, step.s.procs[i].c.reductions + 1);
      LoopExtends(m, next, i, REDUCTIONS, hal, Then(t, step.ev), r);
    }
  }

  // An instruction before the SEND.
  ghost predicate OneOn(step: Stepped, t: Trace, f: Flow, i: nat, k: nat, reading: int) {
    && i < SLOTS && step.Stepped? && |step.s.procs| == SLOTS && step.status.Ok?
    && step.s.procs[i].c.state.Ready? && step.s.procs[i].c.reductions == k
    && Passing(SetBudget(step.s, i, k + 1), Then(t, step.ev), f, i, k + 1, reading)
  }

  lemma PassOn(m: Stepper, s: Sys, t: Trace, f: Flow, i: nat, k: nat, reading: int, hal: nat -> Io)
      returns (step: Stepped)
    requires PassesAt(m, s, t, f, i, k, reading, hal(k)) && Passing(s, t, f, i, k, reading) && k < 10
    requires reading == Reading(hal(8))
    ensures step == StepSlot(m, s, i, hal(k)) && OneOn(step, t, f, i, k, reading)
    ensures GoesOn(s, i, REDUCTIONS) && s.procs[i].c.reductions == k
  {
    step := StepSlot(m, s, i, hal(k));
  }

  // The SEND.
  lemma PassEnds(m: Stepper, s: Sys, t: Trace, f: Flow, i: nat, reading: int, hal: nat -> Io, r: Ran)
    requires PassesAt(m, s, t, f, i, 10, reading, hal(10)) && Passing(s, t, f, i, 10, reading) && i < SLOTS
    requires r == Loop(m, s, i, REDUCTIONS, hal, t) && r.Ran?
    ensures [reading] <= Offers(r.trace, i)
  {
    StepHappens(m, s, t, i, hal, r);
    var t1 := Then(t, StepSlot(m, s, i, hal(10)).ev);
    assert Offers(t1, i) == [reading];
    OffersStay(t1, r.trace, i);
  }

  // The first slice of a sensor reaches its SEND.
  lemma {:induction false} PassLoop(
      m: Stepper, s: Sys, t: Trace, f: Flow, i: nat, k: nat, reading: int, hal: nat -> Io, r: Ran)
    requires PassesThrough(m, f, i, reading) && Passing(s, t, f, i, k, reading) && i < SLOTS
    requires reading == Reading(hal(8)) && r == Loop(m, s, i, REDUCTIONS, hal, t) && r.Ran?
    ensures [reading] <= Offers(r.trace, i)
    decreases 10 - k
  {
    assert PassesAt(m, s, t, f, i, k, reading, hal(k));
    if k < 10 {
      var step := PassOn(m, s, t, f, i, k, reading, hal);
      var s' := LoopOn(m, s, t, i, k, hal, step, r);
      PassLoop(m, s', Then(t, step.ev), f, i, k + 1, reading, hal, r);
    } else {
      PassEnds(m, s, t, f, i, reading, hal, r);
    }
  }

  // ---- from the start ----

  // Sensor i has not run yet.
  ghost predicate Unstarted(s: Sys, t: Trace, f: Flow, i: nat) {
    && FlowInv(s, t, f) && i < |f.sensors| && Offers(t, i) == []
    && s.procs[i].c.pc == 0 && s.procs[i].c.state.Ready?
  }

  // The tick that first runs it.
  lemma FirstTickOffers(m: Stepper, s: Sys, t: Trace, f: Flow, i: nat, now: Word, hal: nat -> Io)
    requires RunsFlow(m, f) && PassesThrough(m, f, i, Reading(hal(8))) && Unstarted(s, t, f, i)
    requires Pick(Wake(s, now), 0) == i
    ensures var r := Tick(m, s, now, hal, t); r.Ran? && [Reading(hal(8))] <= Offers(r.trace, i)
  {
    var s1 := Wake(s, now);
    assert InvAt(s, i) && SensorAt(s, t, f, Channel(f), i);
    FlowWake(s, t, f, now);
    FlowDispatch(s1, t, f, i);
    TickIsLoop(m, s, t, now, hal, i);
    var s3, st3, t3 := FlowTick(m, s, t, f, now, hal);
    assert s1.procs[i] == s.procs[i];
    QuietEvent(t, Dispatched(i), i, |f.sensors|);
    PassLoop(m, Turn(s1, i), Then(t, Dispatched(i)), f, i, 0, Reading(hal(8)), hal, Tick(m, s, now, hal, t));
  }

  // acts[k] is the first tick that runs process i.
  ghost predicate FirstRunAt(m: Stepper, s: Sys, acts: seq<Action>, t: Trace, i: nat, k: nat)
    requires |s.procs| == SLOTS
    decreases k
  {
    && k < |acts|
    && if k == 0 then Runs(s, acts[0], i)
       else
         && !Runs(s, acts[0], i) && Act(m, s, acts[0], t).Ran?
         && FirstRunAt(m, Act(m, s, acts[0], t).s, acts[1..], Act(m, s, acts[0], t).trace, i, k - 1)
  }

  // A tick that runs another process leaves it unstarted and nearer.
  lemma OtherTick(m: Stepper, s: Sys, t: Trace, f: Flow, i: nat, a: Action) returns (s': Sys, t': Trace)
    requires RunsFlow(m, f) && Unstarted(s, t, f, i) && i < SLOTS && a.DoTick? && !Runs(s, a, i)
    ensures Act(m, s, a, t).Ran? && Act(m, s, a, t).s == s' && Act(m, s, a, t).trace == t'
    ensures Unstarted(s', t', f, i) && Distance(s'.current, i) < Distance(s.current, i)
  {
    var st;
    s', st, t' := FlowTick(m, s, t, f, a.now, a.hal);
    var s1, t1 := ActApproaches(m, s, t, a, i);
    var s2, st2, t2, n := TickKeeps(m, s, t, a.now, a.hal);
    var k := Pick(Wake(s, a.now), 0);
    if k < SLOTS {
      QuietEvent(t, Dispatched(k), i, |f.sensors|);
      OffersElsewhere(Then(t, Dispatched(k)), t2, k, n, i);
    }
  }

  // The tick that first runs it, in a history.
  lemma FirstActOffers(m: Stepper, s: Sys, t: Trace, f: Flow, i: nat, acts: seq<Action>, r: Ran)
    requires RunsFlow(m, f) && OnlyTicks(acts) && acts != [] && Unstarted(s, t, f, i) && Runs(s, acts[0], i)
    requires PassesThrough(m, f, i, Reading(acts[0].hal(8))) && r == Perform(m, s, acts, t) && r.Ran?
    ensures [Reading(acts[0].hal(8))] <= Offers(r.trace, i)
  {
    var a, rest := acts[0], acts[1..];
    FirstTickOffers(m, s, t, f, i, a.now, a.hal);
    var tick := Tick(m, s, a.now, a.hal, t);
    var last := Perform(m, tick.s, rest, tick.trace);
    PerformFirst(m, s, acts, t, tick.s, tick.status, tick.trace, last);
    HistoryExtends(m, tick.s, rest, tick.trace);
    OffersStay(tick.trace, last.trace, i);
  }

  lemma {:induction false} FirstReadingOffered(m: Stepper, s: Sys, t: Trace, f: Flow, i: nat, acts: seq<Action>, r: Ran)
      returns (k: nat)
    requires RunsFlow(m, f) && (forall v :: PassesThrough(m, f, i, v)) && Unstarted(s, t, f, i) && i < SLOTS
    requires OnlyTicks(acts) && |acts| > Distance(s.current, i) && r == Perform(m, s, acts, t) && r.Ran?
    ensures FirstRunAt(m, s, acts, t, i, k) && k <= Distance(s.current, i)
    ensures [Reading(acts[k].hal(8))] <= Offers(r.trace, i)
    decreases |acts|
  {
    if Runs(s, acts[0], i) {
      k := 0;
      FirstActOffers(m, s, t, f, i, acts, r);
    } else {
      var s1, t1 := OtherTick(m, s, t, f, i, acts[0]);
      var rest := acts[1..];
      var last := Perform(m, s1, rest, t1);
      var n := FirstReadingOffered(m, s1, t1, f, i, rest, last);
      PerformFirst(m, s, acts, t, s1, Act(m, s, acts[0], t).status, t1, last);
      k := n + 1;
    }
  }

  // A spawned sensor has not run.
  lemma BootedUnstarted(f: Flow, capacity: nat, s: Sys, t: Trace, i: nat)
    requires Runnable(f) && capacity <= MAX_SPACE && i < |f.sensors| && FlowInv(s, t, f) && Silent(t)
    requires |Programs(f)| <= SLOTS && s == Booted(Programs(f), capacity)
    ensures Unstarted(s, t, f, i) && s.current == 0
  {
    assert SentBy(t, i) == 0;
  }

  // What was accepted of the offers.
  lemma FirstReadingTaken(s: Sys, t: Trace, f: Flow, i: nat, reading: int)
    requires FlowInv(s, t, f) && i < |f.sensors| && Posts(t, |f.sensors|) == [] && [reading] <= Offers(t, i)
    ensures var n := |f.sensors|;
            && Taken(t, i) == Delivered(Offers(t, i), n) && SentBy(t, i) == |Taken(t, i)|
            && (ValidPwmDuty(reading) ==> Taken(t, i) == [reading])
            && (forall v :: v in Taken(t, i) ==> Duty(Channel(f), v) in AcceptedBy(t, n))
  {
    FlowDelivers(s, t, f, i);
    TakenIsAccepted(t, i, |f.sensors|, Channel(f));
    assert Offers(t, i)[0] == reading;
  }

  // From power-up every sensor is run within eight ticks, and what the driver
  // answers to its first reading is the first it offers.  Of all it ever
  // offers, exactly what Delivered says is accepted, as a duty for the flow's
  // channel: the first reading if it is in range; or, with seven sensors, the
  // first one that is.
  lemma FirstReadingIsDelivered(f: Flow, capacity: nat, acts: seq<Action>, i: nat)
      returns (s0: Sys, t0: Trace, s: Sys, t: Trace, k: nat)
    requires Runnable(f) && capacity <= MAX_SPACE && i < |f.sensors| && OnlyTicks(acts) && |acts| >= SLOTS
    ensures Perform(Machine.Step, Initial(capacity), Spawns(Programs(f)), Start) == Ran(s0, Ok, t0)
    ensures Perform(Machine.Step, Initial(capacity), Spawns(Programs(f)) + acts, Start) == Ran(s, Ok, t)
    ensures |s0.procs| == SLOTS && FirstRunAt(Machine.Step, s0, acts, t0, i, k) && k < SLOTS && FlowInv(s, t, f)
    ensures Posts(t, |f.sensors|) == []
    ensures var reading, n := Reading(acts[k].hal(8)), |f.sensors|;
            && [reading] <= Offers(t, i)
            && Taken(t, i) == Delivered(Offers(t, i), n) && SentBy(t, i) == |Taken(t, i)|
            && (ValidPwmDuty(reading) ==> Taken(t, i) == [reading])
            && (forall v :: v in Taken(t, i) ==> Duty(Channel(f), v) in AcceptedBy(t, n))
  {
    ghost var m: Stepper := Machine.Step;
    s0, t0 := FlowBoots(f, capacity);
    BootedUnstarted(f, capacity, s0, t0, i);
    MachineRunsFlow(f);
    forall v
      ensures PassesThrough(m, f, i, v)
    {
      MachinePasses(f, i, v);
    }
    s, t := FlowTicks(m, s0, t0, f, acts);
    k := FirstReadingOffered(m, s0, t0, f, i, acts, Perform(m, s0, acts, t0));
    PerformJoin(m, Initial(capacity), Spawns(Programs(f)), acts, Start);
    FirstReadingTaken(s, t, f, i, Reading(acts[k].hal(8)));
  }
}
