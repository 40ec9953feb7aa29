// How long a process rests and how long it runs: SLEEP_MS and HALT over whole
// histories, and the 64 instructions of a tick.
module Delays {
  import opened Term
  import opened Commands
  import opened Bytecode
  import opened Machine
  import opened System
  import opened Scheduling
  import opened Progress
  import opened Messages
  import opened Meanings
  import opened RunBound

  // ---- resting ----

  lemma {:induction false} SliceElsewhere(t: Trace, t': Trace, k: nat, n: nat, j: nat)
    requires Continues(t, t', k, n)
    ensures StepsOf(t', j) == StepsOf(t, j) + if j == k then n else 0
    decreases t'
  {
    if !(t' == t && n == 0) {
      SliceElsewhere(t, t'.before, k, n - 1, j);
    }
  }

  // An action that does not run j executes none of its instructions.
  lemma ActElsewhere(m: Stepper, s: Sys, t: Trace, a: Action, j: nat)
    requires Good(s, t) && j < SLOTS && Act(m, s, a, t).Ran? && !Runs(s, a, j)
    ensures StepsOf(Act(m, s, a, t).trace, j) == StepsOf(t, j)
  {
    if a.DoTick? {
      var s', st, t', n := TickKeeps(m, s, t, a.now, a.hal);
      var k := Pick(Wake(s, a.now), 0);
      if k < SLOTS {
        SliceElsewhere(Then(t, Dispatched(k)), t', k, n, j);
      }
    }
  }

  // A resting process executes nothing.
  lemma {:induction false} RestingIsIdle(m: Stepper, s: Sys, t: Trace, acts: seq<Action>, j: nat, r: Ran)
    requires Good(s, t) && j < SLOTS && Rests(s.procs[j], acts) && r == Perform(m, s, acts, t) && r.Ran?
    ensures StepsOf(r.trace, j) == StepsOf(t, j)
    decreases |acts|
  {
    assert InvAt(s, j);
    if acts != [] {
      assert acts[0].DoTick? ==> Wake(s, acts[0].now).procs[j] == s.procs[j];
      var s1, t1 := ActPassesOver(m, s, t, acts[0], j);
      ActElsewhere(m, s, t, acts[0], j);
      assert Rests(s1.procs[j], acts[1..]);
      RestingIsIdle(m, s1, t1, acts[1..], j, Perform(m, s1, acts[1..], t1));
    }
  }

  // An instruction that is no mail and leaves the process not READY ends its
  // slice.
  lemma EndsSlice(m: Stepper, s: Sys, t: Trace, j: nat, hal: nat -> Io, p': Proc)
    requires Good(s, t) && GoesOn(s, j, REDUCTIONS) && s.procs[j].c.state.Ready?
    requires m(s.procs[j], hal(s.procs[j].c.reductions)) == Did(p', Ok) && !p'.c.state.Ready?
    requires p'.c.mailbox == s.procs[j].c.mailbox
    ensures var s' := s.(procs := s.procs[j := p']);
            && Loop(m, s, j, REDUCTIONS, hal, t) == Ran(s', Ok, Then(t, Plain(j)))
            && Good(s', Then(t, Plain(j)))
  {
    var io := hal(s.procs[j].c.reductions);
    var s', ev := StepKeeps(m, s, t, j, io);
    LoopStep(m, s, t, j, REDUCTIONS, hal, s', Ok, Plain(j));
  }

  // Nothing happened to process j from (s, t) to (s', t') but mail.
  ghost predicate Idle(s: Sys, t: Trace, s': Sys, t': Trace, j: nat) {
    && |s.procs| == |s'.procs| == SLOTS && j < SLOTS
    && Dispatches(t', j) == Dispatches(t, j) && StepsOf(t', j) == StepsOf(t, j)
    && s'.procs[j].regs == s.procs[j].regs && s'.procs[j].heap == s.procs[j].heap
    && s'.procs[j].c.pc == s.procs[j].c.pc && s'.procs[j].c.state == s.procs[j].c.state
  }

  lemma RestsIdle(m: Stepper, s: Sys, t: Trace, acts: seq<Action>, j: nat, r: Ran)
    requires Good(s, t) && j < SLOTS && Rests(s.procs[j], acts) && r == Perform(m, s, acts, t) && r.Ran?
    ensures Good(r.s, r.trace) && Idle(s, t, r.s, r.trace, j)
    ensures r.s.procs[j].c.sleepUntil == s.procs[j].c.sleepUntil
  {
    var s', t' := RestingStays(m, s, t, acts, j);
    RestingIsIdle(m, s, t, acts, j, r);
  }

  // When process j, in its slice, is about to execute SLEEP_MS.
  ghost predicate AtSleep(s: Sys, t: Trace, j: nat, i: Instr) {
    && Good(s, t) && GoesOn(s, j, 64) && s.procs[j].c.state.Ready?
    && Stands(s.procs[j], i) && i.SleepMs?
  }

  // The time it will be woken: the clock it reads plus what its register shows.
  function Deadline(s: Sys, j: nat, i: Instr, hal: nat -> Io): Word
    requires |s.procs| == SLOTS && j < SLOTS && i.SleepMs?
  {
    (hal(s.procs[j].c.reductions).now + IntAt(s.procs[j].regs, i.reg)) % 0x1_0000_0000
  }

  lemma DeadlineIsSum(s: Sys, j: nat, i: Instr, hal: nat -> Io)
    requires |s.procs| == SLOTS && j < SLOTS && i.SleepMs?
    requires IntAt(s.procs[j].regs, i.reg) >= 0
    requires hal(s.procs[j].c.reductions).now + IntAt(s.procs[j].regs, i.reg) < 0x1_0000_0000
    ensures Deadline(s, j, i, hal) == hal(s.procs[j].c.reductions).now + IntAt(s.procs[j].regs, i.reg)
  {
  }

  // SLEEP_MS ends the slice, and until a tick reads the deadline the process
  // is not dispatched and executes nothing, whatever else goes on.
  lemma SleepLasts(s: Sys, t: Trace, j: nat, i: Instr, hal: nat -> Io, acts: seq<Action>) returns (s1: Sys, r: Ran)
    requires AtSleep(s, t, j, i) && NoTickReaches(acts, Deadline(s, j, i, hal))
    ensures Loop(Machine.Step, s, j, 64, hal, t) == Ran(s1, Ok, Then(t, Plain(j)))
    ensures |s1.procs| == SLOTS && r == Perform(Machine.Step, s1, acts, Then(t, Plain(j)))
    ensures s1.procs[j].regs == s.procs[j].regs && s1.procs[j].c.pc == After(s.procs[j])
    ensures r.Ran? ==> Good(r.s, r.trace) && Idle(s1, Then(t, Plain(j)), r.s, r.trace, j)
    ensures r.Ran? ==> r.s.procs[j].c.state.Sleeping? && r.s.procs[j].c.sleepUntil == Deadline(s, j, i, hal)
  {
    ghost var m: Stepper := Machine.Step;
    var p' := Slept(s, j, i, hal);
    s1 := s.(procs := s.procs[j := p']);
    r := Perform(m, s1, acts, Then(t, Plain(j)));
    RestsFrom(m, s, t, j, hal, p', acts, r);
  }

  // The process after its SLEEP_MS.
  lemma Slept(s: Sys, j: nat, i: Instr, hal: nat -> Io) returns (p': Proc)
    requires |s.procs| == SLOTS && j < SLOTS && Stands(s.procs[j], i) && i.SleepMs?
    ensures Machine.Step(s.procs[j], hal(s.procs[j].c.reductions)) == Did(p', Ok)
    ensures p'.regs == s.procs[j].regs && p'.c.pc == After(s.procs[j]) && p'.c.mailbox == s.procs[j].c.mailbox
    ensures p'.c.state.Sleeping? && p'.c.sleepUntil == Deadline(s, j, i, hal)
  {
    SleepSetsDeadline(s.procs[j], i, hal(s.procs[j].c.reductions));
    p' := Machine.Step(s.procs[j], hal(s.procs[j].c.reductions)).p;
  }

  // A process that comes to rest in its slice stays as it is.
  lemma RestsFrom(m: Stepper, s: Sys, t: Trace, j: nat, hal: nat -> Io, p': Proc, acts: seq<Action>, r: Ran)
    requires Good(s, t) && GoesOn(s, j, REDUCTIONS) && s.procs[j].c.state.Ready?
    requires m(s.procs[j], hal(s.procs[j].c.reductions)) == Did(p', Ok) && Rests(p', acts)
    requires p'.c.mailbox == s.procs[j].c.mailbox
    requires r == Perform(m, s.(procs := s.procs[j := p']), acts, Then(t, Plain(j)))
    ensures var s1 := s.(procs := s.procs[j := p']);
            && Loop(m, s, j, REDUCTIONS, hal, t) == Ran(s1, Ok, Then(t, Plain(j)))
            && (r.Ran? ==> Good(r.s, r.trace) && Idle(s1, Then(t, Plain(j)), r.s, r.trace, j))
            && (r.Ran? ==> r.s.procs[j].c.sleepUntil == p'.c.sleepUntil)
  {
    EndsSlice(m, s, t, j, hal, p');
    if r.Ran? {
      RestsIdle(m, s.(procs := s.procs[j := p']), Then(t, Plain(j)), acts, j, r);
    }
  }

  // The first tick at or after the deadline runs the sleeper or leaves it
  // READY; eight ticks later at the latest it has been dispatched.
  lemma SleepEnds(s: Sys, t: Trace, j: nat, i: Instr, hal: nat -> Io, acts: seq<Action>, now: Word,
      hal': nat -> Io, later: seq<Action>) returns (s1: Sys, r: Ran, tick: Ran)
    requires AtSleep(s, t, j, i) && NoTickReaches(acts, Deadline(s, j, i, hal)) && now >= Deadline(s, j, i, hal)
    ensures Loop(Machine.Step, s, j, 64, hal, t) == Ran(s1, Ok, Then(t, Plain(j)))
    ensures |s1.procs| == SLOTS && r == Perform(Machine.Step, s1, acts, Then(t, Plain(j)))
    ensures r.Ran? ==> |r.s.procs| == SLOTS && tick == Act(Machine.Step, r.s, DoTick(now, hal'), r.trace)
    ensures r.Ran? && tick.Ran? ==>
              && |tick.s.procs| == SLOTS
              && (tick.s.procs[j].c.state.Ready? || Dispatches(tick.trace, j) == Dispatches(r.trace, j) + 1)
    ensures r.Ran? && tick.Ran? && Perform(Machine.Step, tick.s, later, tick.trace).Ran? && Ticks(later) >= 8 ==>
              Dispatches(Perform(Machine.Step, tick.s, later, tick.trace).trace, j) > Dispatches(r.trace, j)
  {
    ghost var m: Stepper := Machine.Step;
    s1, r := SleepLasts(s, t, j, i, hal, acts);
    tick := r;
    if r.Ran? {
      tick := Act(m, r.s, DoTick(now, hal'), r.trace);
      if tick.Ran? {
        Awakes(m, r.s, r.trace, j, now, hal', later);
      }
    }
  }

  lemma Awakes(m: Stepper, s: Sys, t: Trace, j: nat, now: Word, hal: nat -> Io, later: seq<Action>)
    requires Good(s, t) && j < SLOTS && s.procs[j].c.state.Sleeping? && now >= s.procs[j].c.sleepUntil
    requires Act(m, s, DoTick(now, hal), t).Ran?
    ensures var tick := Act(m, s, DoTick(now, hal), t);
            && (tick.s.procs[j].c.state.Ready? || Dispatches(tick.trace, j) == Dispatches(t, j) + 1)
            && (Perform(m, tick.s, later, tick.trace).Ran? && Ticks(later) >= 8 ==>
                  Dispatches(Perform(m, tick.s, later, tick.trace).trace, j) > Dispatches(t, j))
  {
    SleeperWakes(m, s, t, now, hal, j);
    var s', t' := ActGrows(m, s, t, DoTick(now, hal), j);
    if Perform(m, s', later, t').Ran? && Ticks(later) >= 8 {
      PerformGrows(m, s', t', later, j);
      if Dispatches(t', j) == Dispatches(t, j) {
        DispatchedWithinEightTicks(m, s', t', later, j);
      }
    }
  }

  // HALT ends the slice and the process: it is never dispatched again.
  lemma HaltLasts(s: Sys, t: Trace, j: nat, i: Instr, hal: nat -> Io, acts: seq<Action>) returns (s1: Sys, r: Ran)
    requires Good(s, t) && GoesOn(s, j, 64) && s.procs[j].c.state.Ready? && Stands(s.procs[j], i) && i.Halt?
    ensures Loop(Machine.Step, s, j, 64, hal, t) == Ran(s1, Ok, Then(t, Plain(j)))
    ensures |s1.procs| == SLOTS && r == Perform(Machine.Step, s1, acts, Then(t, Plain(j)))
    ensures r.Ran? ==> Idle(s1, Then(t, Plain(j)), r.s, r.trace, j)
  {
    ghost var m: Stepper := Machine.Step;
    var io := hal(s.procs[j].c.reductions);
    HaltStops(s.procs[j], i, io, io);
    var p' := Machine.Step(s.procs[j], io).p;
    s1 := s.(procs := s.procs[j := p']);
    r := Perform(m, s1, acts, Then(t, Plain(j)));
    RestsFrom(m, s, t, j, hal, p', acts, r);
  }

  // ---- the 64 instructions of a tick ----

  predicate AtYield(p: Proc) {
    Decode(p.c.program, p.c.pc).Decoded? && Decode(p.c.program, p.c.pc).instr.Yield?
  }

  // m changes the instruction count at a YIELD only.
  ghost predicate CountsAt(m: Stepper, p: Proc, io: Io) {
    m(p, io).Did? && !AtYield(p) ==> m(p, io).p.c.reductions == p.c.reductions
  }

  ghost predicate Counts(m: Stepper) { forall p, io :: CountsAt(m, p, io) }

  lemma ExecuteCounts(p: Proc, at: nat, i: Instr, io: Io)
    requires !i.Yield? && Execute(p, at, i, io).Did?
    ensures Execute(p, at, i, io).p.c.reductions == p.c.reductions
  {
  }

  lemma MachineCountsAt(p: Proc, io: Io, r: Outcome)
    requires r == Step(p, io) && r.Did? && !AtYield(p)
    ensures r.p.c.reductions == p.c.reductions
  {
    if !p.c.halted && Decode(p.c.program, p.c.pc).Decoded? {
      var d := Decode(p.c.program, p.c.pc);
      ExecuteCounts(p.(c := p.c.(pc := d.next)), p.c.pc, d.instr, io);
    }
  }

  lemma MachineCounts()
    ensures Counts(Machine.Step)
  {
    ghost var m: Stepper := Machine.Step;
    forall p, io
      ensures CountsAt(m, p, io)
    {
      if m(p, io).Did? && !AtYield(p) {
        MachineCountsAt(p, io, m(p, io));
      }
    }
  }

  // The instruction process k executes in s ends its slice: it fails, blocks,
  // sleeps or halts, or it is a YIELD.
  ghost predicate Stops(m: Stepper, s: Sys, k: nat, hal: nat -> Io) {
    && |s.procs| == SLOTS && k < SLOTS
    && var step := StepSlot(m, s, k, hal(s.procs[k].c.reductions));
       step.Stepped? && (!step.status.Ok? || !step.s.procs[k].c.state.Ready? || AtYield(s.procs[k]))
  }

  // The status of a slice is that of the last instruction it executed.
  ghost predicate EndsWith(m: Stepper, s: Sys, k: nat, hal: nat -> Io, st: Status) {
    && |s.procs| == SLOTS && k < SLOTS
    && StepSlot(m, s, k, hal(s.procs[k].c.reductions)).Stepped?
    && st == StepSlot(m, s, k, hal(s.procs[k].c.reductions)).status
  }

  lemma StepCounts(m: Stepper, s: Sys, k: nat, io: Io)
    requires Counts(m) && |s.procs| == SLOTS && k < SLOTS && !s.procs[k].c.halted && StepSlot(m, s, k, io).Stepped?
    ensures StepSlot(m, s, k, io).s.procs[k].c.reductions ==
              s.procs[k].c.reductions || AtYield(s.procs[k])
  {
    assert CountsAt(m, s.procs[k], io) && Tame(s.procs[k], m(s.procs[k], io));
  }

  // One round of the loop, with the count it leaves.
  lemma CountedRound(m: Stepper, s: Sys, t: Trace, k: nat, hal: nat -> Io, r: Ran)
      returns (again: bool, next: Sys, t': Trace)
    requires Counts(m) && Good(s, t) && GoesOn(s, k, REDUCTIONS) && s.procs[k].c.state.Ready?
    requires r == Loop(m, s, k, REDUCTIONS, hal, t) && r.Ran?
    ensures Continues(t, t', k, 1)
    ensures again ==> Round(m, k, hal, s, next) && Good(next, t') && next.procs[k].c.state.Ready?
    ensures again ==> r == Loop(m, next, k, REDUCTIONS, hal, t')
    ensures again ==> BudgetLeft(next, k, REDUCTIONS) < BudgetLeft(s, k, REDUCTIONS)
    ensures again ==> next.procs[k].c.reductions == s.procs[k].c.reductions + 1 || Stops(m, s, k, hal)
    ensures !again ==> r.trace == t' && Stops(m, s, k, hal) && EndsWith(m, s, k, hal, r.status)
    ensures again ==> EndsWith(m, s, k, hal, Ok)
  {
    var io := hal(s.procs[k].c.reductions);
    var step := LoopGoesOn(m, s, t, k, REDUCTIONS, hal, r);
    var s1, ev := StepKeeps(m, s, t, k, io);
    StepCounts(m, s, k, io);
    again, next, t' := false, s1, Then(t, ev);
    assert Continues(t, t', k, 1);
    if step.status.Ok? && s1.procs[k].c.state.Ready? {
      again, next := true, SetBudget(s1, k, s1.procs[k].c.reductions + 1);
      BudgetKeeps(s1, t', k, s1.procs[k].c.reductions + 1);
    }
  }

  // One more instruction in front of a run.
  lemma RunLonger(m: Stepper, s: Sys, t: Trace, t': Trace, k: nat, hal: nat -> Io, rest: seq<Sys>, r: Ran)
      returns (ss: seq<Sys>)
    requires r.Ran? && GoesOn(s, k, REDUCTIONS) && IsRun(m, k, REDUCTIONS, hal, rest)
    requires rest != [] ==> Round(m, k, hal, s, rest[0])
    requires Continues(t, t', k, 1) && Continues(t', r.trace, k, |rest|)
    ensures ss == [s] + rest && IsRun(m, k, REDUCTIONS, hal, ss) && Continues(t, r.trace, k, |ss|)
    ensures rest != [] ==> ss[|ss| - 1] == rest[|rest| - 1]
  {
    Prepend(m, k, REDUCTIONS, hal, s, rest);
    ContinuesJoin(t, t', r.trace, k, 1, |rest|);
    ss := [s] + rest;
  }

  lemma {:induction false} LoopRunsOut(m: Stepper, s: Sys, t: Trace, k: nat, hal: nat -> Io, r: Ran)
      returns (ss: seq<Sys>)
    requires Counts(m) && Good(s, t) && k < SLOTS && s.procs[k].c.state.Ready?
    requires r == Loop(m, s, k, REDUCTIONS, hal, t) && r.Ran?
    ensures IsRun(m, k, REDUCTIONS, hal, ss) && Continues(t, r.trace, k, |ss|)
    ensures (ss == [] <==> s.procs[k].c.reductions >= REDUCTIONS) && (ss != [] ==> ss[0] == s)
    ensures ss != [] ==>
              |ss| == REDUCTIONS - s.procs[k].c.reductions || Stops(m, ss[|ss| - 1], k, hal)
    ensures if ss == [] then r.status.Ok? else EndsWith(m, ss[|ss| - 1], k, hal, r.status)
    decreases BudgetLeft(s, k, REDUCTIONS)
  {
    assert InvAt(s, k);
    ss := [];
    if s.procs[k].c.reductions < REDUCTIONS {
      var again, next, t' := CountedRound(m, s, t, k, hal, r);
      ss := [s];
      if again {
        var rest := LoopRunsOut(m, next, t', k, hal, r);
        ss := RunLonger(m, s, t, t', k, hal, rest, r);
      }
    }
  }

  // A tick that dispatches process k executes exactly 64 of its instructions,
  // or fewer if the last of them failed, blocked, slept, halted or yielded,
  // and returns the status of the last.  ss are the states before each.
  lemma SixtyFourInstructions(s: Sys, t: Trace, now: Word, hal: nat -> Io, k: nat) returns (ss: seq<Sys>)
    requires Good(s, t) && Tick(Machine.Step, s, now, hal, t).Ran? && Pick(Wake(s, now), 0) == k < SLOTS
    ensures ss != [] && ss[0] == Turn(Wake(s, now), k) && IsRun(Machine.Step, k, 64, hal, ss)
    ensures Continues(Then(t, Dispatched(k)), Tick(Machine.Step, s, now, hal, t).trace, k, |ss|)
    ensures |ss| == 64 || (|ss| < 64 && Stops(Machine.Step, ss[|ss| - 1], k, hal))
    ensures EndsWith(Machine.Step, ss[|ss| - 1], k, hal, Tick(Machine.Step, s, now, hal, t).status)
    ensures forall j :: 0 <= j < |ss| - 1 ==> !Stops(Machine.Step, ss[j], k, hal)
  {
    ghost var m: Stepper := Machine.Step;
    MachineCounts();
    ss := TickRunsOut(m, s, t, now, hal, k);
    NoStopInside(m, k, hal, ss);
  }

  lemma TickRunsOut(m: Stepper, s: Sys, t: Trace, now: Word, hal: nat -> Io, k: nat) returns (ss: seq<Sys>)
    requires Counts(m) && Good(s, t) && Tick(m, s, now, hal, t).Ran? && Pick(Wake(s, now), 0) == k < SLOTS
    ensures ss != [] && ss[0] == Turn(Wake(s, now), k) && IsRun(m, k, REDUCTIONS, hal, ss)
    ensures Continues(Then(t, Dispatched(k)), Tick(m, s, now, hal, t).trace, k, |ss|)
    ensures |ss| <= REDUCTIONS && (|ss| == REDUCTIONS || Stops(m, ss[|ss| - 1], k, hal))
    ensures EndsWith(m, ss[|ss| - 1], k, hal, Tick(m, s, now, hal, t).status)
  {
    WakeGood(s, t, now);
    DispatchGood(Wake(s, now), t, k);
    BudgetKeeps(Wake(s, now).(current := (k + 1) % SLOTS), Then(t, Dispatched(k)), k, 0);
    TickIsLoop(m, s, t, now, hal, k);
    ss := LoopRunsOut(m, Turn(Wake(s, now), k), Then(t, Dispatched(k)), k, hal, Tick(m, s, now, hal, t));
    BudgetLimits(m, k, REDUCTIONS, hal, ss);
  }

  // Only the last instruction of a slice ends it.
  lemma NoStopInside(m: Stepper, k: nat, hal: nat -> Io, ss: seq<Sys>)
    requires m == Machine.Step && IsRun(m, k, REDUCTIONS, hal, ss)
    ensures forall j :: 0 <= j < |ss| - 1 ==> !Stops(m, ss[j], k, hal)
  {
    forall j | 0 <= j < |ss| - 1
      ensures !Stops(m, ss[j], k, hal)
    {
      var s, n := ss[j], j + 1;
      assert GoesOn(s, k, REDUCTIONS) && GoesOn(ss[n], k, REDUCTIONS) && Round(m, k, hal, s, ss[n]);
      if AtYield(s.procs[k]) {
        YieldCounts(s.procs[k], hal(s.procs[k].c.reductions));
      }
    }
  }

  lemma YieldCounts(p: Proc, io: Io)
    requires AtYield(p) && !p.c.halted
    ensures Step(p, io).Did? && Step(p, io).p.c.reductions == REDUCTIONS
  {
  }
}
