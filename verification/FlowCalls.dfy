// The calls of the driver: every accepted command leads to its PWM call, and
// one that the call cannot bear makes a tick fault.
module FlowCalls {
  import opened Term
  import opened Commands
  import opened Mailbox
  import opened Machine
  import opened System
  import opened Scheduling
  import opened Progress
  import opened Messages
  import opened FlowCompiler
  import opened FlowProcesses
  import opened FlowTraces
  import opened FlowRuns
  import opened FlowHistories
  import opened FlowDelivery

  // ---- the actuator's round: RECV_CMD, PWM call, jump ----

  // p, with commands queued or past its RECV_CMD, goes to q.
  ghost predicate Steps(p: Proc, q: Proc) {
    && p.c.mailbox.Valid() && q.c.mailbox.Valid() && q.c.state.Ready?
    && q.c.pc == (if p.c.pc == 0 then 6 else if p.c.pc == 6 then 12 else 0)
    && q.c.mailbox.Contents() == if p.c.pc == 0 && p.c.mailbox.Contents() != []
                                 then p.c.mailbox.Contents()[1..] else p.c.mailbox.Contents()
  }

  ghost predicate Busy(s: Sys, t: Trace, f: Flow) {
    && FlowInv(s, t, f) && s.procs[|f.sensors|].c.state.Ready? && s.procs[|f.sensors|].c.mailbox.Valid()
    && (s.procs[|f.sensors|].c.pc == 0 ==> s.procs[|f.sensors|].c.mailbox.Contents() != [])
  }

  // The calls go from c to c': one more at the PWM call, which decides the
  // status, and no other.
  ghost predicate CallsGo(c: seq<Command>, c': seq<Command>, pc: nat, st: Status) {
    && c <= c' && (st.Ok? <==> BearableFrom(c', |c|))
    && |c'| == |c| + if pc == 6 then 1 else 0
  }

  // From (s, t) the actuator makes its next instruction.
  ghost predicate Acted(s: Sys, t: Trace, f: Flow, st: Status, s': Sys, t': Trace) {
    && FlowInv(s, t, f) && FlowInv(s', t', f)
    && Steps(s.procs[|f.sensors|], s'.procs[|f.sensors|])
    && CallsGo(Calls(s, t, f), Calls(s', t', f), s.procs[|f.sensors|].c.pc, st)
    && AcceptedBy(t', |f.sensors|) == AcceptedBy(t, |f.sensors|) && Posts(t', |f.sensors|) == Posts(t, |f.sensors|)
  }

  ghost predicate ActsAt(m: Stepper, s: Sys, t: Trace, f: Flow, io: Io) {
    Busy(s, t, f) ==>
      var r := StepSlot(m, s, |f.sensors|, io);
      && r.Stepped? && Acted(s, t, f, r.status, r.s, Then(t, r.ev))
      && r.s.procs[|f.sensors|].c.reductions == s.procs[|f.sensors|].c.reductions
  }

  // m executes the actuator's round.
  ghost predicate Acts(m: Stepper, f: Flow) { forall s, t, io :: ActsAt(m, s, t, f, io) }

  lemma TakeActs(s: Sys, t: Trace, f: Flow, io: Io)
    requires Busy(s, t, f) && s.procs[|f.sensors|].c.pc == 0
    ensures ActsAt(Machine.Step, s, t, f, io)
  {
    ghost var m: Stepper := Machine.Step;
    var o := m(s.procs[|f.sensors|], io);
    ActuatorTakes(s, t, f, io);
    ActuatorReceives(s.procs[|f.sensors|], io);
    MailStep(m, s, t, |f.sensors|, io, o.p, o.status);
  }

  // The events of an instruction that does not send.
  lemma MailStep(m: Stepper, s: Sys, t: Trace, i: nat, io: Io, p: Proc, st: Status)
    requires |s.procs| == SLOTS && i < SLOTS && m(s.procs[i], io) == Did(p, st)
    ensures var r := StepSlot(m, s, i, io);
            && r.Stepped? && r.s == s.(procs := s.procs[i := p]) && r.status == st
            && AcceptedBy(Then(t, r.ev), i) == AcceptedBy(t, i) && Posts(Then(t, r.ev), i) == Posts(t, i)
  {
  }

  lemma DriveActs(s: Sys, t: Trace, f: Flow, io: Io)
    requires Busy(s, t, f) && s.procs[|f.sensors|].c.pc == 6
    ensures ActsAt(Machine.Step, s, t, f, io)
  {
    ghost var m: Stepper := Machine.Step;
    var o := m(s.procs[|f.sensors|], io);
    ActuatorDrives(s, t, f, io);
    ActuatorCalls(s.procs[|f.sensors|], io);
    QuietStep(m, s, |f.sensors|, io, o.p, o.status);
    OneMoreCall(Calls(s, t, f), ReceivedBy(t, |f.sensors|), o.status);
  }

  lemma OneMoreCall(c: seq<Command>, c': seq<Command>, st: Status)
    requires c' != [] && c + [c'[|c'| - 1]] == c' && (st.Ok? <==> Bearable(c'[|c'| - 1]))
    ensures CallsGo(c, c', 6, st)
  {
    assert |c'| == |c| + 1;
  }

  lemma ReturnActs(s: Sys, t: Trace, f: Flow, io: Io)
    requires Busy(s, t, f) && s.procs[|f.sensors|].c.pc == 12
    ensures ActsAt(Machine.Step, s, t, f, io)
  {
    ghost var m: Stepper := Machine.Step;
    ActuatorReturns(s, t, f, io);
    ActuatorJumps(s.procs[|f.sensors|], io);
    QuietStep(m, s, |f.sensors|, io, m(s.procs[|f.sensors|], io).p, Ok);
  }

  lemma MachineActs(f: Flow)
    ensures Acts(Machine.Step, f)
  {
    forall s, t, io
      ensures ActsAt(Machine.Step, s, t, f, io)
    {
      if Busy(s, t, f) {
        if s.procs[|f.sensors|].c.pc == 0 {
          TakeActs(s, t, f, io);
        } else if s.procs[|f.sensors|].c.pc == 6 {
          DriveActs(s, t, f, io);
        } else {
          ReturnActs(s, t, f, io);
        }
      }
    }
  }

  // One of these instructions in the loop.
  lemma ActStep(m: Stepper, s: Sys, t: Trace, f: Flow, io: Io) returns (step: Stepped)
    requires ActsAt(m, s, t, f, io) && Busy(s, t, f)
    ensures step == StepSlot(m, s, |f.sensors|, io) && step.Stepped? && |step.s.procs| == SLOTS
    ensures Acted(s, t, f, step.status, step.s, Then(t, step.ev)) && step.s.procs[|f.sensors|].c.state.Ready?
    ensures step.s.procs[|f.sensors|].c.reductions == s.procs[|f.sensors|].c.reductions
    ensures !s.procs[|f.sensors|].c.halted
  {
    assert InvAt(s, |f.sensors|);
    step := StepSlot(m, s, |f.sensors|, io);
  }

  lemma ActBudget(s: Sys, t: Trace, f: Flow, st: Status, s': Sys, t': Trace, c: nat)
    requires Acted(s, t, f, st, s', t') && |s'.procs| == SLOTS
    ensures Acted(s, t, f, st, SetBudget(s', |f.sensors|, c), t')
  {
    FlowBudget(s', t', f, |f.sensors|, c);
  }

  lemma ActNext(m: Stepper, s: Sys, t: Trace, f: Flow, io: Io) returns (step: Stepped, s': Sys)
    requires ActsAt(m, s, t, f, io) && Busy(s, t, f)
    ensures step == StepSlot(m, s, |f.sensors|, io) && step.Stepped? && |step.s.procs| == SLOTS
    ensures Acted(s, t, f, step.status, s', Then(t, step.ev)) && step.s.procs[|f.sensors|].c.state.Ready?
    ensures step.s.procs[|f.sensors|].c.reductions == s.procs[|f.sensors|].c.reductions
    ensures !s.procs[|f.sensors|].c.halted
    ensures s' == if step.status.Ok? then SetBudget(step.s, |f.sensors|, s.procs[|f.sensors|].c.reductions + 1)
                  else step.s
  {
    step := ActStep(m, s, t, f, io);
    s' := step.s;
    if step.status.Ok? {
      var c := s.procs[|f.sensors|].c.reductions + 1;
      ActBudget(s, t, f, step.status, step.s, Then(t, step.ev), c);
      s' := SetBudget(step.s, |f.sensors|, c);
    }
  }

  // The loop after it.
  lemma ActRound(m: Stepper, s: Sys, t: Trace, f: Flow, hal: nat -> Io, r: Ran)
      returns (st: Status, s': Sys, t': Trace)
    requires Acts(m, f) && Busy(s, t, f) && s.procs[|f.sensors|].c.reductions < REDUCTIONS
    requires r == Loop(m, s, |f.sensors|, REDUCTIONS, hal, t)
    ensures Acted(s, t, f, st, s', t')
    ensures st.Ok? ==>
              && r == Loop(m, s', |f.sensors|, REDUCTIONS, hal, t')
              && s'.procs[|f.sensors|].c.reductions == s.procs[|f.sensors|].c.reductions + 1
    ensures !st.Ok? ==> r == Ran(s', st, t')
  {
    var n := |f.sensors|;
    var c := s.procs[n].c.reductions;
    assert ActsAt(m, s, t, f, hal(c));
    var step;
    step, s' := ActNext(m, s, t, f, hal(c));
    st, t' := step.status, Then(t, step.ev);
    if st.Ok? {
      var s1 := LoopOn(m, s, t, n, c, hal, step, r);
    } else {
      LoopEnds(m, s, t, n, hal, step, r);
    }
  }

  // Calls are made on the accepted commands, in order.
  lemma CallsInOrder(s: Sys, t: Trace, f: Flow)
    requires FlowInv(s, t, f)
    ensures Calls(s, t, f) <= AcceptedBy(t, |f.sensors|)
    ensures s.procs[|f.sensors|].c.mailbox.Valid()
    ensures s.procs[|f.sensors|].c.pc == 0 && s.procs[|f.sensors|].c.mailbox.Contents() == [] ==>
              Calls(s, t, f) == AcceptedBy(t, |f.sensors|)
    ensures s.procs[|f.sensors|].c.pc == 0 && s.procs[|f.sensors|].c.mailbox.Contents() != [] ==>
              Calls(s, t, f) + [s.procs[|f.sensors|].c.mailbox.Contents()[0]] <= AcceptedBy(t, |f.sensors|)
  {
    assert ConservedAt(s, t, |f.sensors|);
  }

  // Only at its RECV_CMD, and without mail, does the actuator wait.
  lemma WaitsAtReceive(s: Sys, t: Trace, f: Flow)
    requires FlowInv(s, t, f)
    ensures var p := s.procs[|f.sensors|];
            || p.c.state.Ready?
            || (p.c.state.Waiting? && p.c.pc == 0 && p.c.mailbox.Valid() && p.c.mailbox.Contents() == [])
  {
    assert InvAt(s, |f.sensors|);
    ActuatorDecodes(s.procs[|f.sensors|].c.pc);
  }

  // ---- the next call ----

  // A slice of the actuator that finds mail makes a call.
  lemma SliceCalls(m: Stepper, s: Sys, t: Trace, f: Flow, hal: nat -> Io, r: Ran)
    requires RunsFlow(m, f) && Acts(m, f) && Busy(s, t, f)
    requires s.procs[|f.sensors|].c.pc == 0 && s.procs[|f.sensors|].c.reductions == 0
    requires r == Loop(m, s, |f.sensors|, REDUCTIONS, hal, t)
    ensures r.Ran? && |r.s.procs| == SLOTS && FlowInv(r.s, r.trace, f)
    ensures |Calls(s, t, f)| < |Calls(r.s, r.trace, f)|
  {
    var st1, s1, t1 := ActRound(m, s, t, f, hal, r);
    var st2, s2, t2 := ActRound(m, s1, t1, f, hal, r);
    if st2.Ok? {
      var s3, st3, t3 := FlowLoop(m, s2, t2, f, |f.sensors|, hal, r);
    }
  }

  lemma TickCalls(m: Stepper, s: Sys, t: Trace, f: Flow, now: Word, hal: nat -> Io)
    requires RunsFlow(m, f) && Acts(m, f) && Busy(s, t, f) && s.procs[|f.sensors|].c.pc == 0
    requires Pick(Wake(s, now), 0) == |f.sensors|
    ensures var r := Tick(m, s, now, hal, t);
            r.Ran? && FlowInv(r.s, r.trace, f) && |Calls(s, t, f)| < |Calls(r.s, r.trace, f)|
  {
    var n := |f.sensors|;
    FlowWake(s, t, f, now);
    FlowDispatch(Wake(s, now), t, f, n);
    TickIsLoop(m, s, t, now, hal, n);
    SliceCalls(m, Turn(Wake(s, now), n), Then(t, Dispatched(n)), f, hal, Tick(m, s, now, hal, t));
  }

  // A tick that runs another process leaves the READY actuator where it was.
  lemma Passed(m: Stepper, s: Sys, t: Trace, f: Flow, a: Action) returns (s': Sys, t': Trace)
    requires RunsFlow(m, f) && FlowInv(s, t, f) && s.procs[|f.sensors|].c.state.Ready?
    requires a.DoTick? && !Runs(s, a, |f.sensors|)
    ensures Act(m, s, a, t).Ran? && Act(m, s, a, t).s == s' && Act(m, s, a, t).trace == t' && FlowInv(s', t', f)
    ensures Grew(s.procs[|f.sensors|], s'.procs[|f.sensors|]) && s'.procs[|f.sensors|].c.state.Ready?
    ensures Distance(s'.current, |f.sensors|) < Distance(s.current, |f.sensors|)
    ensures Calls(s, t, f) <= Calls(s', t', f) && Posts(t', |f.sensors|) == Posts(t, |f.sensors|)
    ensures AcceptedBy(t, |f.sensors|) <= AcceptedBy(t', |f.sensors|)
  {
    var st;
    s', st, t' := FlowTick(m, s, t, f, a.now, a.hal);
    var s1, t1 := ActApproaches(m, s, t, a, |f.sensors|);
    TickExtends(m, s, a.now, a.hal, t);
    AcceptedStays(t, t', |f.sensors|);
  }

  // ---- a command the call cannot bear ----

  // Within eight ticks a READY actuator that faces mail makes its next call.
  lemma {:induction false} NextCall(m: Stepper, s: Sys, t: Trace, f: Flow, acts: seq<Action>)
    requires RunsFlow(m, f) && Acts(m, f) && Busy(s, t, f) && s.procs[|f.sensors|].c.pc == 0
    requires OnlyTicks(acts) && |acts| > Distance(s.current, |f.sensors|)
    ensures var r := Perform(m, s, acts, t);
            r.Ran? && FlowInv(r.s, r.trace, f) && |Calls(s, t, f)| < |Calls(r.s, r.trace, f)|
    decreases |acts|
  {
    var a, rest := acts[0], acts[1..];
    var s0, t0, good := FlowRun(m, s, t, f, acts);
    if Runs(s, a, |f.sensors|) {
      TickCalls(m, s, t, f, a.now, a.hal);
      var r := Tick(m, s, a.now, a.hal, t);
      var s1, t1, good1 := FlowRun(m, r.s, r.trace, f, rest);
    } else {
      var s1, t1 := Passed(m, s, t, f, a);
      NextCall(m, s1, t1, f, rest);
    }
  }

  // A valid command that the PWM call cannot bear, sent to the actuator of a
  // flow at power-up, makes one of the next eight ticks fault, whatever the
  // flow, the clock and the hardware.
  lemma UnbearableFaults(f: Flow, capacity: nat, cmd: Command, acts: seq<Action>) returns (s0: Sys, t0: Trace)
    requires Runnable(f) && capacity <= MAX_SPACE && OnlyTicks(acts) && |acts| >= SLOTS
    requires Validate(cmd).Ok? && !Bearable(cmd)
    ensures Perform(Machine.Step, Initial(capacity), Spawns(Programs(f)), Start) == Ran(s0, Ok, t0)
    ensures |s0.procs| == SLOTS
    ensures !TicksSucceed(Machine.Step, s0, [DoSend(ActuatorPid(f), cmd)] + acts, t0)
  {
    ghost var m: Stepper := Machine.Step;
    MachineRunsFlow(f);
    MachineActs(f);
    s0, t0 := FlowBoots(f, capacity);
    var s1, t1 := BootedFaces(m, s0, t0, f, capacity, cmd);
    PostThenFault(m, s0, t0, f, cmd, s1, t1, acts);
  }

  // A valid command for a process without mail comes first.
  lemma PostToEmpty(s: Sys, pid: nat, n: nat, cmd: Command)
    requires |s.procs| == SLOTS && n < SLOTS && Lookup(s, pid) == n && Validate(cmd).Ok?
    requires s.procs[n].c.mailbox == EmptyRing() && s.procs[n].c.state.Ready?
    ensures var (s', st) := Post(s, pid, cmd);
            var p := s'.procs[n];
            && st.Ok? && s'.current == s.current && p.c.state.Ready? && p.c.pc == s.procs[n].c.pc
            && p.c.mailbox.Valid() && p.c.mailbox.Contents() == [cmd]
  {
    PushAppends(EmptyRing(), cmd);
    assert EmptyRing().Contents() == [];
  }

  // The actuator after the post.
  lemma BootedFaces(m: Stepper, s: Sys, t: Trace, f: Flow, capacity: nat, cmd: Command) returns (s': Sys, t': Trace)
    requires Runnable(f) && capacity <= MAX_SPACE && FlowInv(s, t, f) && Calls(s, t, f) == [] && Validate(cmd).Ok?
    requires |Programs(f)| <= SLOTS && s == Booted(Programs(f), capacity)
    ensures Act(m, s, DoSend(ActuatorPid(f), cmd), t) == Ran(s', Ok, t')
    ensures Busy(s', t', f) && s'.procs[|f.sensors|].c.pc == 0 && s'.current == 0 && Calls(s', t', f) == []
    ensures s'.procs[|f.sensors|].c.mailbox.Contents()[0] == cmd
  {
    var n, pid := |f.sensors|, ActuatorPid(f);
    assert s.procs[n] == Spawned(n + 1, Programs(f)[n], capacity);
    SendFinds(s, t, f, pid);
    PostToEmpty(s, pid, n, cmd);
    FlowPost(s, t, f, pid, cmd);
    s', t' := Post(s, pid, cmd).0, Then(t, PostEvent(pid, cmd, Ok));
  }

  lemma PostThenFault(m: Stepper, s0: Sys, t0: Trace, f: Flow, cmd: Command, s: Sys, t: Trace, acts: seq<Action>)
    requires RunsFlow(m, f) && Acts(m, f) && |s0.procs| == SLOTS && OnlyTicks(acts) && |acts| >= SLOTS && !Bearable(cmd)
    requires Act(m, s0, DoSend(ActuatorPid(f), cmd), t0) == Ran(s, Ok, t)
    requires Busy(s, t, f) && s.procs[|f.sensors|].c.pc == 0 && s.current == 0
    requires s.procs[|f.sensors|].c.mailbox.Contents()[0] == cmd
    ensures !TicksSucceed(m, s0, [DoSend(ActuatorPid(f), cmd)] + acts, t0)
  {
    var n, all := |f.sensors|, [DoSend(ActuatorPid(f), cmd)] + acts;
    assert all[0] == DoSend(ActuatorPid(f), cmd) && all[1..] == acts;
    NextCall(m, s, t, f, acts);
    var s1, t1, good := FlowRun(m, s, t, f, acts);
    CallsInOrder(s, t, f);
    CallsInOrder(s1, t1, f);
    HistoryExtends(m, s, acts, t);
    AcceptedStays(t, t1, n);
    assert Calls(s1, t1, f)[|Calls(s, t, f)|] == cmd;
    FirstAct(m, s0, all, t0, acts, s, Ok, t, Perform(m, s, acts, t));
  }

  // Whether a command is bearable has nothing to do with being a duty: the
  // level of pin 39 is not, no command at all with channel and duty is.
  lemma BearableIsNotDuty()
    ensures Validate(Command(CMD_GPIO_WRITE, 39, 1, 0, 0)).Ok? && !Bearable(Command(CMD_GPIO_WRITE, 39, 1, 0, 0))
    ensures Validate(Command(CMD_NONE, 3, 500, 9, 9)).Ok? && Bearable(Command(CMD_NONE, 3, 500, 9, 9))
    ensures forall channel :: !IsDuty(Command(CMD_NONE, 3, 500, 9, 9), channel)
  {
  }

  // ---- every accepted command is called ----

  // The instructions until the actuator has called what it holds.
  function Work(p: Proc): nat
    requires p.c.mailbox.count <= CAPACITY
  {
    3 * p.c.mailbox.count + if p.c.pc == 0 then 0 else if p.c.pc == 6 then 2 else 1
  }

  lemma {:induction false} DrainLoop(m: Stepper, s: Sys, t: Trace, f: Flow, hal: nat -> Io, r: Ran)
    requires RunsFlow(m, f) && Acts(m, f) && FlowInv(s, t, f) && Posts(t, |f.sensors|) == []
    requires s.procs[|f.sensors|].c.state.Ready? && s.procs[|f.sensors|].c.mailbox.count <= CAPACITY
    requires s.procs[|f.sensors|].c.reductions + Work(s.procs[|f.sensors|]) <= REDUCTIONS
    requires r == Loop(m, s, |f.sensors|, REDUCTIONS, hal, t)
    ensures r.Ran? && |r.s.procs| == SLOTS && FlowInv(r.s, r.trace, f)
    ensures |AcceptedBy(t, |f.sensors|)| <= |Calls(r.s, r.trace, f)|
    decreases Work(s.procs[|f.sensors|])
  {
    CallsInOrder(s, t, f);
    if s.procs[|f.sensors|].c.pc == 0 && s.procs[|f.sensors|].c.mailbox.Contents() == [] {
      var s3, st3, t3 := FlowLoop(m, s, t, f, |f.sensors|, hal, r);
    } else {
      var st, s1, t1 := ActRound(m, s, t, f, hal, r);
      CallsAreBearable(s1, t1, f);
      DrainLoop(m, s1, t1, f, hal, r);
    }
  }

  lemma CallsAreBearable(s: Sys, t: Trace, f: Flow)
    requires FlowInv(s, t, f) && Posts(t, |f.sensors|) == []
    ensures BearableFrom(Calls(s, t, f), 0)
  {
    forall j | 0 <= j < |Calls(s, t, f)|
      ensures Bearable(Calls(s, t, f)[j])
    {
      CallsAccepted(s, t, f, j);
    }
  }

  lemma TickDrains(m: Stepper, s: Sys, t: Trace, f: Flow, now: Word, hal: nat -> Io)
    requires RunsFlow(m, f) && Acts(m, f) && FlowInv(s, t, f) && Posts(t, |f.sensors|) == []
    requires s.procs[|f.sensors|].c.state.Ready? && Pick(Wake(s, now), 0) == |f.sensors|
    ensures var r := Tick(m, s, now, hal, t);
            r.Ran? && FlowInv(r.s, r.trace, f) && |AcceptedBy(t, |f.sensors|)| <= |Calls(r.s, r.trace, f)|
  {
    var n := |f.sensors|;
    MailboxStaysSmall(s, t, f);
    FlowWake(s, t, f, now);
    FlowDispatch(Wake(s, now), t, f, n);
    TickIsLoop(m, s, t, now, hal, n);
    DrainLoop(m, Turn(Wake(s, now), n), Then(t, Dispatched(n)), f, hal, Tick(m, s, now, hal, t));
  }

  // Without commands from outside, eight ticks suffice for the driver to be
  // called with every command accepted so far.
  lemma {:induction false} AllCalled(m: Stepper, s: Sys, t: Trace, f: Flow, acts: seq<Action>, k: nat)
    requires RunsFlow(m, f) && Acts(m, f) && FlowInv(s, t, f) && Posts(t, |f.sensors|) == []
    requires OnlyTicks(acts) && |acts| > Distance(s.current, |f.sensors|) && k <= |AcceptedBy(t, |f.sensors|)|
    ensures var r := Perform(m, s, acts, t);
            r.Ran? && FlowInv(r.s, r.trace, f) && k <= |Calls(r.s, r.trace, f)|
    decreases |acts|
  {
    var a, rest := acts[0], acts[1..];
    var s0, t0 := FlowTicks(m, s, t, f, acts);
    CallsInOrder(s, t, f);
    if |Calls(s, t, f)| < k {
      WaitsAtReceive(s, t, f);
      if Runs(s, a, |f.sensors|) {
        TickDrains(m, s, t, f, a.now, a.hal);
        var s1, st1, t1 := FlowTick(m, s, t, f, a.now, a.hal);
        var s2, t2 := FlowTicks(m, s1, t1, f, rest);
      } else {
        var s1, t1 := Passed(m, s, t, f, a);
        AllCalled(m, s1, t1, f, rest, k);
      }
    }
  }

  // A first reading in range reaches the driver: within sixteen ticks of
  // power-up the PWM call is made with the flow's channel and that reading.
  lemma FirstReadingIsDriven(f: Flow, capacity: nat, first: seq<Action>, later: seq<Action>, i: nat)
      returns (s0: Sys, t0: Trace, s: Sys, t: Trace, k: nat)
    requires Runnable(f) && capacity <= MAX_SPACE && i < |f.sensors|
    requires OnlyTicks(first) && |first| >= SLOTS && OnlyTicks(later) && |later| >= SLOTS
    ensures Perform(Machine.Step, Initial(capacity), Spawns(Programs(f)), Start) == Ran(s0, Ok, t0)
    ensures |s0.procs| == SLOTS
    ensures FirstRunAt(Machine.Step, s0, first, t0, i, k) && k < SLOTS
    ensures Perform(Machine.Step, Initial(capacity), Spawns(Programs(f)) + first + later, Start) == Ran(s, Ok, t)
    ensures FlowInv(s, t, f)
    ensures var reading := Reading(first[k].hal(8));
            ValidPwmDuty(reading) ==> Duty(Channel(f), reading) in Calls(s, t, f)
  {
    ghost var m: Stepper := Machine.Step;
    MachineRunsFlow(f);
    MachineActs(f);
    var s1, t1;
    s0, t0, s1, t1, k := FirstReadingIsDelivered(f, capacity, first, i);
    s, t := LaterCalls(m, Initial(capacity), Spawns(Programs(f)) + first, s1, t1, f, later);
    DutyTaken(t1, Taken(t1, i), |f.sensors|, Channel(f), Reading(first[k].hal(8)), Calls(s, t, f));
  }

  lemma DutyTaken(t: Trace, taken: seq<int>, n: nat, channel: int, reading: int, calls: seq<Command>)
    requires ValidPwmDuty(reading) ==> taken == [reading]
    requires forall v :: v in taken ==> Duty(channel, v) in AcceptedBy(t, n)
    requires forall cmd :: cmd in AcceptedBy(t, n) ==> cmd in calls
    ensures ValidPwmDuty(reading) ==> Duty(channel, reading) in calls
  {
    if ValidPwmDuty(reading) {
      assert reading in taken;
    }
  }

  // Ticks after a history let the driver be called with all accepted in it.
  lemma LaterCalls(m: Stepper, s0: Sys, before: seq<Action>, s: Sys, t: Trace, f: Flow, acts: seq<Action>)
      returns (s': Sys, t': Trace)
    requires |s0.procs| == SLOTS && Perform(m, s0, before, Start) == Ran(s, Ok, t)
    requires RunsFlow(m, f) && Acts(m, f) && FlowInv(s, t, f) && Posts(t, |f.sensors|) == []
    requires OnlyTicks(acts) && |acts| >= SLOTS
    ensures Perform(m, s0, before + acts, Start) == Ran(s', Ok, t') && FlowInv(s', t', f)
    ensures forall cmd :: cmd in AcceptedBy(t, |f.sensors|) ==> cmd in Calls(s', t', f)
  {
    var n := |f.sensors|;
    PerformJoin(m, s0, before, acts, Start);
    s', t' := FlowTicks(m, s, t, f, acts);
    AllCalled(m, s, t, f, acts, |AcceptedBy(t, n)|);
    HistoryExtends(m, s, acts, t);
    AcceptedStays(t, t', n);
    CallsInOrder(s', t', f);
    forall cmd | cmd in AcceptedBy(t, n)
      ensures cmd in Calls(s', t', f)
    {
      var j :| 0 <= j < |AcceptedBy(t, n)| && AcceptedBy(t, n)[j] == cmd;
      assert Calls(s', t', f)[j] == cmd;
    }
  }
}
