// Histories of a compiled flow: when it faults, and what it delivers.
module FlowHistories {
  import opened Term
  import opened Commands
  import opened Mailbox
  import opened Bytecode
  import opened Machine
  import opened System
  import opened Scheduling
  import opened FlowCompiler
  import opened FlowProcesses
  import opened FlowTraces
  import opened FlowRuns

  // ---- slices and ticks ----

  // Changing the bookkeeping of one process keeps the invariant.
  lemma FlowTouch(s: Sys, t: Trace, f: Flow, s': Sys, t': Trace, i: nat)
    requires FlowInv(s, t, f) && Good(s', t') && s'.count == s.count && i < SLOTS
    requires forall j: nat :: j < SLOTS && j != i ==> s'.procs[j] == s.procs[j]
    requires s'.procs[i] == s.procs[i].(c := s.procs[i].c.(reductions := s'.procs[i].c.reductions))
    requires t' == t || t' == Then(t, Dispatched(i))
    ensures FlowInv(s', t', f) && Calls(s', t', f) == Calls(s, t, f) && Posts(t', |f.sensors|) == Posts(t, |f.sensors|)
  {
    forall j: nat
      ensures SensorAt(s', t', f, Channel(f), j)
    {
      assert SensorAt(s, t, f, Channel(f), j);
      QuietEvent(t, Dispatched(i), j, |f.sensors|);
    }
    QuietEvent(t, Dispatched(i), 0, |f.sensors|);
    SentByFirstStep(t, Dispatched(i), |f.sensors|);
  }

  lemma FlowBudget(s: Sys, t: Trace, f: Flow, i: nat, n: nat)
    requires FlowInv(s, t, f) && i < SLOTS
    ensures FlowInv(SetBudget(s, i, n), t, f) && Calls(SetBudget(s, i, n), t, f) == Calls(s, t, f)
  {
    BudgetKeeps(s, t, i, n);
    FlowTouch(s, t, f, SetBudget(s, i, n), t, i);
  }

  lemma AdvancesJoin(c: seq<Command>, c1: seq<Command>, c2: seq<Command>, st: Status)
    requires Advances(c, c1, Ok) && Advances(c1, c2, st)
    ensures Advances(c, c2, st)
  {
    if st.Ok? {
      forall j | |c| <= j < |c2|
        ensures Bearable(c2[j])
      {
        if j < |c1| { assert c2[j] == c1[j]; }
      }
    } else {
      var j :| |c1| <= j < |c2| && !Bearable(c2[j]);
    }
  }

  // m executes an instruction of a flow as FlowStep says.
  ghost predicate StepsWell(m: Stepper, s: Sys, t: Trace, f: Flow, i: nat, io: Io) {
    FlowInv(s, t, f) && i < SLOTS && s.procs[i].c.state.Ready? ==>
      var r := StepSlot(m, s, i, io);
      && r.Stepped? && FlowInv(r.s, Then(t, r.ev), f)
      && Advances(Calls(s, t, f), Calls(r.s, Then(t, r.ev), f), r.status)
      && (i == |f.sensors| && s.procs[i].c.pc == 6 ==> |Calls(r.s, Then(t, r.ev), f)| == |Calls(s, t, f)| + 1)
  }

  ghost predicate RunsFlow(m: Stepper, f: Flow) { forall s, t, i: nat, io :: StepsWell(m, s, t, f, i, io) }

  lemma MachineRunsFlow(f: Flow)
    ensures RunsFlow(Machine.Step, f)
  {
    forall s, t, i: nat, io
      ensures StepsWell(Machine.Step, s, t, f, i, io)
    {
      if FlowInv(s, t, f) && i < SLOTS && s.procs[i].c.state.Ready? {
        var s', st, ev := FlowStep(s, t, f, i, io);
      }
    }
  }

  // What a slice, a tick or a history leads to.
  ghost predicate Leads(s: Sys, t: Trace, f: Flow, s': Sys, t': Trace) {
    && FlowInv(s, t, f) && FlowInv(s', t', f)
    && Calls(s, t, f) <= Calls(s', t', f) && Posts(t', |f.sensors|) == Posts(t, |f.sensors|)
  }

  // One instruction of a slice.
  lemma FlowInstruction(m: Stepper, s: Sys, t: Trace, f: Flow, i: nat, io: Io) returns (step: Stepped)
    requires RunsFlow(m, f) && FlowInv(s, t, f) && i < SLOTS && s.procs[i].c.state.Ready?
    ensures step == StepSlot(m, s, i, io) && step.Stepped? && |step.s.procs| == SLOTS && !s.procs[i].c.halted
    ensures Leads(s, t, f, step.s, Then(t, step.ev))
    ensures Advances(Calls(s, t, f), Calls(step.s, Then(t, step.ev), f), step.status)
  {
    assert InvAt(s, i) && StepsWell(m, s, t, f, i, io);
    step := StepSlot(m, s, i, io);
    QuietEvent(t, step.ev, SLOTS, |f.sensors|);
  }

  // One round of the loop: it ends there, or goes on from (s', t').
  lemma FlowRound(m: Stepper, s: Sys, t: Trace, f: Flow, i: nat, hal: nat -> Io, r: Ran)
      returns (again: bool, s': Sys, st: Status, t': Trace)
    requires RunsFlow(m, f) && FlowInv(s, t, f) && i < SLOTS && s.procs[i].c.state.Ready?
    requires s.procs[i].c.reductions < REDUCTIONS && r == Loop(m, s, i, REDUCTIONS, hal, t)
    ensures Leads(s, t, f, s', t') && Advances(Calls(s, t, f), Calls(s', t', f), st)
    ensures again ==> st.Ok? && s'.procs[i].c.state.Ready?
    ensures again ==> BudgetLeft(s', i, REDUCTIONS) < BudgetLeft(s, i, REDUCTIONS)
    ensures again ==> r == Loop(m, s', i, REDUCTIONS, hal, t')
    ensures !again ==> r == Ran(s', st, t')
  {
    var c := s.procs[i].c.reductions;
    var step := FlowInstruction(m, s, t, f, i, hal(c));
    LoopStep(m, s, t, i, REDUCTIONS, hal, step.s, step.status, step.ev);
    again, s', st, t' := false, step.s, step.status, Then(t, step.ev);
    if st.Ok? && step.s.procs[i].c.state.Ready? {
      var c1 := step.s.procs[i].c.reductions + 1;
      again, s' := true, SetBudget(step.s, i, c1);
      FlowBudget(step.s, t', f, i, c1);
    }
  }

  lemma {:induction false} FlowLoop(m: Stepper, s: Sys, t: Trace, f: Flow, i: nat, hal: nat -> Io, r: Ran)
      returns (s': Sys, st: Status, t': Trace)
    requires RunsFlow(m, f) && FlowInv(s, t, f) && i < SLOTS && s.procs[i].c.state.Ready?
    requires r == Loop(m, s, i, REDUCTIONS, hal, t)
    ensures r == Ran(s', st, t') && Leads(s, t, f, s', t') && Advances(Calls(s, t, f), Calls(s', t', f), st)
    decreases BudgetLeft(s, i, REDUCTIONS)
  {
    if s.procs[i].c.reductions >= REDUCTIONS {
      s', st, t' := s, Ok, t;
    } else {
      var again, s1, st1, t1 := FlowRound(m, s, t, f, i, hal, r);
      s', st, t' := s1, st1, t1;
      if again {
        s', st, t' := FlowLoop(m, s1, t1, f, i, hal, r);
        AdvancesJoin(Calls(s, t, f), Calls(s1, t1, f), Calls(s', t', f), st);
      }
    }
  }

  lemma FlowWake(s: Sys, t: Trace, f: Flow, now: Word)
    requires FlowInv(s, t, f)
    ensures FlowInv(Wake(s, now), t, f) && Calls(Wake(s, now), t, f) == Calls(s, t, f)
  {
    WakeGood(s, t, now);
    forall j: nat
      ensures SensorAt(Wake(s, now), t, f, Channel(f), j)
    {
      assert SensorAt(s, t, f, Channel(f), j);
    }
  }

  lemma FlowDispatch(s: Sys, t: Trace, f: Flow, k: nat)
    requires FlowInv(s, t, f) && k < SLOTS
    ensures FlowInv(Turn(s, k), Then(t, Dispatched(k)), f)
    ensures Calls(Turn(s, k), Then(t, Dispatched(k)), f) == Calls(s, t, f)
    ensures Posts(Then(t, Dispatched(k)), |f.sensors|) == Posts(t, |f.sensors|)
  {
    var s1 := s.(current := (k + 1) % SLOTS);
    DispatchGood(s, t, k);
    FlowTouch(s, t, f, s1, Then(t, Dispatched(k)), k);
    FlowBudget(s1, Then(t, Dispatched(k)), f, k, 0);
  }

  // A tick of a flow: it faults exactly when a PWM call in it does.
  lemma FlowTick(m: Stepper, s: Sys, t: Trace, f: Flow, now: Word, hal: nat -> Io)
      returns (s': Sys, st: Status, t': Trace)
    requires RunsFlow(m, f) && FlowInv(s, t, f)
    ensures Tick(m, s, now, hal, t) == Ran(s', st, t') && st in {Ok, SchedIdle, BadArgument}
    ensures Leads(s, t, f, s', t') && (!st.BadArgument? <==> BearableFrom(Calls(s', t', f), |Calls(s, t, f)|))
  {
    FlowWake(s, t, f, now);
    var s1 := Wake(s, now);
    var k := Pick(s1, 0);
    if k == SLOTS {
      s', st, t' := s1, SchedIdle, t;
    } else {
      FlowDispatch(s1, t, f, k);
      TickIsLoop(m, s, t, now, hal, k);
      s', st, t' := FlowLoop(m, Turn(s1, k), Then(t, Dispatched(k)), f, k, hal, Tick(m, s, now, hal, t));
    }
  }

  // ---- commands from outside ----

  function PostEvent(pid: nat, cmd: Command, st: Status): Event {
    if st.Ok? && pid > 0 then Posted(pid - 1, cmd) else Refused(pid, st)
  }

  // A post from outside, of any command to anyone.
  lemma FlowPost(s: Sys, t: Trace, f: Flow, pid: nat, cmd: Command)
    requires FlowInv(s, t, f)
    ensures var (s', st) := Post(s, pid, cmd);
            var t' := Then(t, PostEvent(pid, cmd, st));
            && FlowInv(s', t', f) && Calls(s', t', f) == Calls(s, t, f)
            && (st.Ok? ==> pid > 0 && Validate(cmd).Ok?)
            && Posts(t', |f.sensors|) == Posts(t, |f.sensors|) + if st.Ok? && pid == ActuatorPid(f) then [cmd] else []
  {
    PostKeeps(s, pid, cmd);
    var (s', st) := Post(s, pid, cmd);
    var ev := PostEvent(pid, cmd, st);
    PostGood(s, t, pid, cmd, ev);
    assert PostedAt(s, s', pid, cmd, st.Ok?, |f.sensors|);
    forall j: nat
      ensures SensorAt(s', Then(t, ev), f, Channel(f), j)
    {
      assert SensorAt(s, t, f, Channel(f), j) && PostedAt(s, s', pid, cmd, st.Ok?, j);
      PostQuiet(t, ev, j);
    }
    SentByFirstStep(t, ev, |f.sensors|);
  }

  // An event from outside changes nobody's readings.
  lemma PostQuiet(t: Trace, ev: Event, j: nat)
    requires ev.Posted? || ev.Refused?
    ensures Offers(Then(t, ev), j) == Offers(t, j) && Taken(Then(t, ev), j) == Taken(t, j)
    ensures SentBy(Then(t, ev), j) == SentBy(t, j)
  {
  }

  // ---- histories ----

  predicate OnlyTicks(acts: seq<Action>) { forall i :: 0 <= i < |acts| ==> acts[i].DoTick? }

  predicate NoSpawns(acts: seq<Action>) { forall i :: 0 <= i < |acts| ==> !acts[i].DoSpawn? }

  // Every tick of the history returns OK or IDLE.
  ghost predicate TicksSucceed(m: Stepper, s: Sys, acts: seq<Action>, t: Trace)
    requires |s.procs| == SLOTS
    decreases |acts|
  {
    acts == [] ||
    match Act(m, s, acts[0], t)
    case Broken => false
    case Ran(s1, st, t1) => (acts[0].DoTick? ==> st in {Ok, SchedIdle}) && TicksSucceed(m, s1, acts[1..], t1)
  }

  // The commands posted since t were posted by acts, and are valid.
  ghost predicate PostedBy(f: Flow, t: Trace, t': Trace, acts: seq<Action>) {
    forall cmd :: cmd in Posts(t', |f.sensors|) ==>
      cmd in Posts(t, |f.sensors|) || (DoSend(ActuatorPid(f), cmd) in acts && Validate(cmd).Ok?)
  }

  lemma BearableJoin(c: seq<Command>, c1: seq<Command>, c2: seq<Command>)
    requires c <= c1 <= c2
    ensures BearableFrom(c2, |c|) <==> BearableFrom(c1, |c|) && BearableFrom(c2, |c1|)
  {
    forall j | |c| <= j < |c1|
      ensures c1[j] == c2[j]
    {
    }
  }

  // Actions lead from (s, t) to (s', t'); good tells whether the ticks among
  // them succeeded.
  ghost predicate RunsTo(f: Flow, s: Sys, t: Trace, acts: seq<Action>, s': Sys, t': Trace, good: bool) {
    && FlowInv(s, t, f) && FlowInv(s', t', f)
    && Calls(s, t, f) <= Calls(s', t', f) && (good <==> BearableFrom(Calls(s', t', f), |Calls(s, t, f)|))
    && PostedBy(f, t, t', acts) && (OnlyTicks(acts) ==> Posts(t', |f.sensors|) == Posts(t, |f.sensors|))
  }

  lemma RunsJoin(f: Flow, s: Sys, t: Trace, acts: seq<Action>, s1: Sys, t1: Trace, s2: Sys, t2: Trace,
      good: bool, good1: bool)
    requires acts != [] && RunsTo(f, s, t, [acts[0]], s1, t1, good) && RunsTo(f, s1, t1, acts[1..], s2, t2, good1)
    ensures RunsTo(f, s, t, acts, s2, t2, good && good1)
  {
    BearableJoin(Calls(s, t, f), Calls(s1, t1, f), Calls(s2, t2, f));
    PostedLater(f, t, t1, t2, acts);
    if OnlyTicks(acts) {
      assert OnlyTicks([acts[0]]) && OnlyTicks(acts[1..]);
    }
  }

  lemma FlowAct(m: Stepper, s: Sys, t: Trace, f: Flow, a: Action) returns (s': Sys, st: Status, t': Trace)
    requires RunsFlow(m, f) && FlowInv(s, t, f) && !a.DoSpawn?
    ensures Act(m, s, a, t) == Ran(s', st, t') && (a.DoTick? ==> st in {Ok, SchedIdle, BadArgument})
    ensures RunsTo(f, s, t, [a], s', t', a.DoTick? ==> !st.BadArgument?)
  {
    if a.DoTick? {
      s', st, t' := FlowTick(m, s, t, f, a.now, a.hal);
    } else {
      FlowPost(s, t, f, a.pid, a.cmd);
      s', st := Post(s, a.pid, a.cmd).0, Post(s, a.pid, a.cmd).1;
      t' := Then(t, PostEvent(a.pid, a.cmd, st));
      assert [a][0] == a;
    }
  }

  // A history and its ticks, from the first action.
  lemma FirstAct(m: Stepper, s: Sys, acts: seq<Action>, t: Trace, rest: seq<Action>, s1: Sys, st1: Status, t1: Trace,
      r: Ran)
    requires |s.procs| == SLOTS && acts != [] && rest == acts[1..] && Act(m, s, acts[0], t) == Ran(s1, st1, t1)
    requires |s1.procs| == SLOTS && r == Perform(m, s1, rest, t1) && r.Ran?
    ensures Perform(m, s, acts, t) == Ran(r.s, if st1.Ok? || st1.SchedIdle? then r.status else st1, r.trace)
    ensures TicksSucceed(m, s, acts, t) <==>
              (acts[0].DoTick? ==> st1 in {Ok, SchedIdle}) && TicksSucceed(m, s1, rest, t1)
  {
  }

  // Ticks and sends in any order: all ticks succeed iff all PWM calls made on
  // the way do.
  lemma {:induction false} FlowRun(m: Stepper, s: Sys, t: Trace, f: Flow, acts: seq<Action>)
      returns (s': Sys, t': Trace, good: bool)
    requires RunsFlow(m, f) && FlowInv(s, t, f) && NoSpawns(acts)
    ensures var r := Perform(m, s, acts, t);
            r.Ran? && r.s == s' && r.trace == t' && (OnlyTicks(acts) && good ==> r.status.Ok?)
    ensures RunsTo(f, s, t, acts, s', t', good) && (good <==> TicksSucceed(m, s, acts, t))
    decreases |acts|
  {
    if acts == [] {
      s', t', good := s, t, true;
    } else {
      var rest := acts[1..];
      var s1, st1, t1 := FlowAct(m, s, t, f, acts[0]);
      var well := acts[0].DoTick? ==> !st1.BadArgument?;
      s', t', good := FlowRun(m, s1, t1, f, rest);
      FirstAct(m, s, acts, t, rest, s1, st1, t1, Perform(m, s1, rest, t1));
      RunsJoin(f, s, t, acts, s1, t1, s', t', well, good);
      good := well && good;
    }
  }

  lemma PostedLater(f: Flow, t: Trace, t1: Trace, t2: Trace, acts: seq<Action>)
    requires acts != [] && PostedBy(f, t, t1, [acts[0]]) && PostedBy(f, t1, t2, acts[1..])
    ensures PostedBy(f, t, t2, acts)
  {
  }

  // ---- from power-up ----

  // The programs in the order they are spawned: the sensors, then the actuator.
  function Programs(f: Flow): seq<seq<Byte>>
    requires Runnable(f)
  {
    ChannelInRange(f);
    CompileFlow(f).sensorProgs + [CompileActuator()]
  }

  function Spawns(progs: seq<seq<Byte>>): (acts: seq<Action>)
    ensures |acts| == |progs| && forall i :: 0 <= i < |progs| ==> acts[i] == DoSpawn(progs[i])
  {
    seq(|progs|, i requires 0 <= i < |progs| => DoSpawn(progs[i]))
  }

  // The table after spawning progs into an empty one.
  function Booted(progs: seq<seq<Byte>>, capacity: nat): (s: Sys)
    requires |progs| <= SLOTS && capacity <= MAX_SPACE
    ensures |s.procs| == SLOTS
    ensures forall i :: 0 <= i < SLOTS ==>
              s.procs[i] == if i < |progs| then Spawned(i + 1, progs[i], capacity) else Blank(capacity)
  {
    Sys(seq(SLOTS, i requires 0 <= i < SLOTS =>
              if i < |progs| then Spawned(i + 1, progs[i], capacity) else Blank(capacity)),
        0, |progs|)
  }

  // Nothing was sent yet.
  ghost predicate Silent(t: Trace) {
    forall i: nat ::
      && SentBy(t, i) == 0 && AcceptedBy(t, i) == [] && ReceivedBy(t, i) == [] && Posts(t, i) == []
      && Offers(t, i) == [] && Taken(t, i) == []
  }

  lemma BootStep(progs: seq<seq<Byte>>, capacity: nat, t: Trace, k: nat)
    requires k < |progs| <= SLOTS && capacity <= MAX_SPACE && Good(Booted(progs[..k], capacity), t) && Silent(t)
    ensures SpawnProcess(Booted(progs[..k], capacity), progs[k]) == (Booted(progs[..k + 1], capacity), k + 1)
    ensures Good(Booted(progs[..k + 1], capacity), Then(t, Started(k))) && Silent(Then(t, Started(k)))
  {
    var s := Booted(progs[..k], capacity);
    SpawnKeeps(s, t, progs[k]);
    var s' := SpawnProcess(s, progs[k]).0;
    assert s'.procs == Booted(progs[..k + 1], capacity).procs;
    forall i: nat
      ensures var t' := Then(t, Started(k));
              && SentBy(t', i) == 0 && AcceptedBy(t', i) == [] && ReceivedBy(t', i) == [] && Posts(t', i) == []
              && Offers(t', i) == [] && Taken(t', i) == []
    {
      assert SentBy(t, i) == 0;
    }
  }

  lemma {:induction false} Boot(m: Stepper, progs: seq<seq<Byte>>, capacity: nat, k: nat, t: Trace) returns (t': Trace)
    requires k <= |progs| <= SLOTS && capacity <= MAX_SPACE && Good(Booted(progs[..k], capacity), t) && Silent(t)
    ensures Perform(m, Booted(progs[..k], capacity), Spawns(progs)[k..], t) == Ran(Booted(progs, capacity), Ok, t')
    ensures Good(Booted(progs, capacity), t') && Silent(t')
    decreases |progs| - k
  {
    if k == |progs| {
      t' := t;
      assert progs[..k] == progs;
    } else {
      BootStep(progs, capacity, t, k);
      var acts := Spawns(progs)[k..];
      assert acts[0] == DoSpawn(progs[k]) && acts[1..] == Spawns(progs)[k + 1..];
      t' := Boot(m, progs, capacity, k + 1, Then(t, Started(k)));
    }
  }

  lemma SilentBefore(t: Trace)
    requires t.Then? && Silent(t)
    ensures Silent(t.before)
  {
    forall i: nat
      ensures SentBy(t.before, i) == 0 && AcceptedBy(t.before, i) == [] && ReceivedBy(t.before, i) == []
      ensures Posts(t.before, i) == [] && Offers(t.before, i) == [] && Taken(t.before, i) == []
    {
      assert SentBy(t, i) == 0;
    }
  }

  lemma {:induction false} SilentTrace(t: Trace, n: nat, channel: int)
    requires Silent(t)
    ensures SendsDuties(t, n, channel)
    decreases t
  {
    if t.Then? {
      assert t.ev.Sent? ==> SentBy(t, t.ev.slot) == 0;
      SilentBefore(t);
      SilentTrace(t.before, n, channel);
    }
  }

  lemma BootedSensor(f: Flow, capacity: nat, t: Trace, i: nat)
    requires Runnable(f) && f.flows[0].to.ToPwm? && 0 <= Channel(f) <= 7 && capacity <= MAX_SPACE
    requires |Programs(f)| <= SLOTS && Silent(t)
    ensures SensorAt(Booted(Programs(f), capacity), t, f, Channel(f), i)
  {
    if i < |f.sensors| {
      var p := Booted(Programs(f), capacity).procs[i];
      assert ValidSensor(f.sensors[i]) && SentBy(t, i) == 0 && Offers(t, i) == [];
      forall k: nat
        ensures LoadedAt(p.regs, SensorConsts(f.sensors[i], Channel(f), ActuatorPid(f)), 0, k)
      {
      }
    }
  }

  // A freshly booted flow satisfies the invariant.
  lemma BootedIsFlow(f: Flow, capacity: nat, t: Trace)
    requires Runnable(f) && capacity <= MAX_SPACE
    requires |Programs(f)| <= SLOTS && Good(Booted(Programs(f), capacity), t) && Silent(t)
    ensures FlowInv(Booted(Programs(f), capacity), t, f) && Calls(Booted(Programs(f), capacity), t, f) == []
  {
    ChannelInRange(f);
    var s, n := Booted(Programs(f), capacity), |f.sensors|;
    forall i: nat
      ensures SensorAt(s, t, f, Channel(f), i)
    {
      BootedSensor(f, capacity, t, i);
    }
    SilentTrace(t, n, Channel(f));
    assert ReceivedBy(t, n) == [] && AcceptedBy(t, n) == [] && EmptyRing().Contents() == [];
  }

  // Compiling and spawning a valid flow with 1 to 7 sensors.
  lemma FlowBoots(f: Flow, capacity: nat) returns (s: Sys, t: Trace)
    requires Runnable(f) && capacity <= MAX_SPACE
    ensures Perform(Machine.Step, Initial(capacity), Spawns(Programs(f)), Start) == Ran(s, Ok, t)
    ensures |Programs(f)| <= SLOTS && s == Booted(Programs(f), capacity)
    ensures FlowInv(s, t, f) && Silent(t) && Posts(t, |f.sensors|) == [] && Calls(s, t, f) == []
  {
    ChannelInRange(f);
    InitialGood(capacity);
    var progs := Programs(f);
    assert Booted(progs[..0], capacity).procs == Initial(capacity).procs;
    assert Spawns(progs)[0..] == Spawns(progs);
    t := Boot(Machine.Step, progs, capacity, 0, Start);
    s := Booted(progs, capacity);
    BootedIsFlow(f, capacity, t);
    assert Posts(t, |f.sensors|) == [];
  }

  // Ticks alone, in a flow that never got a command from outside, succeed.
  lemma FlowTicks(m: Stepper, s: Sys, t: Trace, f: Flow, acts: seq<Action>) returns (s': Sys, t': Trace)
    requires RunsFlow(m, f) && FlowInv(s, t, f) && OnlyTicks(acts) && Posts(t, |f.sensors|) == []
    ensures Perform(m, s, acts, t) == Ran(s', Ok, t') && FlowInv(s', t', f) && Posts(t', |f.sensors|) == []
    ensures Calls(s, t, f) <= Calls(s', t', f) && TicksSucceed(m, s, acts, t)
  {
    var good;
    s', t', good := FlowRun(m, s, t, f, acts);
    forall j | |Calls(s, t, f)| <= j < |Calls(s', t', f)|
      ensures Bearable(Calls(s', t', f)[j])
    {
      CallsAccepted(s', t', f, j);
    }
  }

  // A valid flow with 1 to 7 sensors, compiled, spawned in order, and run for
  // any number of ticks with any clock and any hardware, while anybody sends
  // any commands to its processes: the invariant holds at the end, and every
  // tick on the way returned OK or IDLE iff every command on which the
  // actuator made its PWM call is bearable.
  lemma FlowFaultsExactly(f: Flow, capacity: nat, acts: seq<Action>) returns (s: Sys, t: Trace)
    requires Runnable(f) && capacity <= MAX_SPACE && NoSpawns(acts)
    ensures var boot := Perform(Machine.Step, Initial(capacity), Spawns(Programs(f)), Start);
            && boot.Ran? && boot.status.Ok?
            && var r := Perform(Machine.Step, Initial(capacity), Spawns(Programs(f)) + acts, Start);
               && r.Ran? && r.s == s && r.trace == t && FlowInv(s, t, f)
               && (TicksSucceed(Machine.Step, boot.s, acts, boot.trace) <==> BearableFrom(Calls(s, t, f), 0))
               && PostedBy(f, Start, t, acts) && (OnlyTicks(acts) ==> Posts(t, |f.sensors|) == [])
               && (OnlyTicks(acts) && BearableFrom(Calls(s, t, f), 0) ==> r.status.Ok?)
  {
    var s0, t0 := FlowBoots(f, capacity);
    MachineRunsFlow(f);
    s, t := RunFromBoot(Machine.Step, s0, t0, f, acts);
    PerformJoin(Machine.Step, Initial(capacity), Spawns(Programs(f)), acts, Start);
  }

  lemma RunFromBoot(m: Stepper, s0: Sys, t0: Trace, f: Flow, acts: seq<Action>) returns (s: Sys, t: Trace)
    requires RunsFlow(m, f) && FlowInv(s0, t0, f) && NoSpawns(acts)
    requires Posts(t0, |f.sensors|) == [] && Calls(s0, t0, f) == []
    ensures var r := Perform(m, s0, acts, t0);
            && r.Ran? && r.s == s && r.trace == t && FlowInv(s, t, f)
            && (TicksSucceed(m, s0, acts, t0) <==> BearableFrom(Calls(s, t, f), 0))
            && PostedBy(f, Start, t, acts) && (OnlyTicks(acts) ==> Posts(t, |f.sensors|) == [])
            && (OnlyTicks(acts) && BearableFrom(Calls(s, t, f), 0) ==> r.status.Ok?)
  {
    var good;
    s, t, good := FlowRun(m, s0, t0, f, acts);
  }

  // Commands that a caller may send to the flow: whatever is not for the
  // actuator, not valid, or bearable.
  ghost predicate BearableSends(f: Flow, acts: seq<Action>) {
    forall cmd :: DoSend(ActuatorPid(f), cmd) in acts && Validate(cmd).Ok? ==> Bearable(cmd)
  }

  // With such commands only, no tick faults.
  lemma FlowNeverFaults(f: Flow, capacity: nat, acts: seq<Action>) returns (s: Sys, t: Trace)
    requires Runnable(f) && capacity <= MAX_SPACE && NoSpawns(acts) && BearableSends(f, acts)
    ensures var boot := Perform(Machine.Step, Initial(capacity), Spawns(Programs(f)), Start);
            boot.Ran? && TicksSucceed(Machine.Step, boot.s, acts, boot.trace)
    ensures var r := Perform(Machine.Step, Initial(capacity), Spawns(Programs(f)) + acts, Start);
            r.Ran? && r.s == s && r.trace == t && FlowInv(s, t, f) && (OnlyTicks(acts) ==> r.status.Ok?)
  {
    s, t := FlowFaultsExactly(f, capacity, acts);
    forall j | 0 <= j < |Calls(s, t, f)|
      ensures Bearable(Calls(s, t, f)[j])
    {
      CallsAccepted(s, t, f, j);
    }
  }

  // A command the actuator was called with is a sensor's duty, or was posted
  // from outside.
  lemma CallsAccepted(s: Sys, t: Trace, f: Flow, j: nat)
    requires FlowInv(s, t, f) && j < |Calls(s, t, f)|
    ensures var cmd := Calls(s, t, f)[j];
            (IsDuty(cmd, Channel(f)) && Bearable(cmd)) || cmd in Posts(t, |f.sensors|)
  {
    var n := |f.sensors|;
    assert ConservedAt(s, t, n);
    var cmd := Calls(s, t, f)[j];
    assert ReceivedBy(t, n)[j] == cmd && AcceptedBy(t, n)[j] == cmd;
    assert cmd in AcceptedBy(t, n);
    AcceptedFrom(t, n, Channel(f));
  }

  // ---- too many sensors ----

  // A full table refuses every further spawn and stays as it is.
  lemma {:induction false} FullTableRefuses(m: Stepper, s: Sys, t: Trace, acts: seq<Action>)
    requires Good(s, t) && s.count == SLOTS && forall i :: 0 <= i < |acts| ==> acts[i].DoSpawn?
    ensures Perform(m, s, acts, t) == Ran(s, if acts == [] then Ok else ProcTableFull, t)
    decreases |acts|
  {
    if acts != [] {
      SpawnKeeps(s, t, acts[0].program);
      FullTableRefuses(m, s, t, acts[1..]);
    }
  }

  // Eight programs fill the table; further spawns are refused.
  lemma SpawnsBeyondEight(m: Stepper, first: seq<seq<Byte>>, rest: seq<Action>, capacity: nat)
    requires |first| == SLOTS && capacity <= MAX_SPACE && rest != [] && forall i :: 0 <= i < |rest| ==> rest[i].DoSpawn?
    ensures var r := Perform(m, Initial(capacity), Spawns(first) + rest, Start);
            r.Ran? && r.status.ProcTableFull? && r.s == Booted(first, capacity)
  {
    InitialGood(capacity);
    assert Booted(first[..0], capacity).procs == Initial(capacity).procs;
    assert Spawns(first)[0..] == Spawns(first);
    var t := Boot(m, first, capacity, 0, Start);
    PerformJoin(m, Initial(capacity), Spawns(first), rest, Start);
    FullTableRefuses(m, Booted(first, capacity), t, rest);
  }

  // With 8 sensors or more the actuator does not fit: spawning fails, and the
  // table holds the first 8 sensors and nothing else.
  lemma EightSensorsLeaveNoActuator(f: Flow, capacity: nat)
    requires ValidFlow(f) && CompileFlow(f).Compiled? && |f.sensors| >= SLOTS && capacity <= MAX_SPACE
    ensures var progs := CompileFlow(f).sensorProgs;
            var r := Perform(Machine.Step, Initial(capacity), Spawns(progs + [CompileActuator()]), Start);
            r.Ran? && r.status.ProcTableFull? && r.s == Booted(progs[..SLOTS], capacity)
  {
    var progs := CompileFlow(f).sensorProgs;
    var all := Spawns(progs + [CompileActuator()]);
    assert all == Spawns(progs[..SLOTS]) + all[SLOTS..];
    SpawnsBeyondEight(Machine.Step, progs[..SLOTS], all[SLOTS..], capacity);
  }

  // What the invariant says about the devices: each sensor keeps its declared
  // bus, address and register once set; every queued command is a duty in
  // range for the first flow's channel, or came from outside; a sensor's
  // commands are accepted at most once in its life, and without commands from
  // outside they are what Delivered says of the readings it offered.
  lemma FlowDelivers(s: Sys, t: Trace, f: Flow, i: nat)
    requires FlowInv(s, t, f) && i < |f.sensors|
    ensures var p, d := s.procs[i], f.sensors[i];
            && SensorPc(d, p.c.pc) && |p.regs| == REG_COUNT
            && (p.c.pc >= 18 ==>
                  && GetSmallint(p.regs[0]) == d.bus && GetSmallint(p.regs[1]) == d.addr
                  && GetSmallint(p.regs[2]) == d.reg)
    ensures SentBy(t, i) <= 1
    ensures Posts(t, |f.sensors|) == [] ==> Taken(t, i) == Delivered(Offers(t, i), |f.sensors|)
    ensures var n := |f.sensors|;
            var mb := s.procs[n].c.mailbox;
            && mb.Valid()
            && |mb.Contents()| <= |AcceptedBy(t, n)| <= n + |Posts(t, n)|
            && (Posts(t, n) == [] ==> |mb.Contents()| < CAPACITY)
            && forall k :: 0 <= k < |mb.Contents()| ==>
                 IsDuty(mb.Contents()[k], Channel(f)) || mb.Contents()[k] in Posts(t, n)
  {
    assert SensorAt(s, t, f, Channel(f), i);
    MailboxStaysSmall(s, t, f);
    QueuedFrom(s, t, f);
    var p, d := s.procs[i], f.sensors[i];
    var cs, n := SensorConsts(d, Channel(f), ActuatorPid(f)), p.c.pc / 6;
    assert LoadedAt(p.regs, cs, n, 0) && LoadedAt(p.regs, cs, n, 1) && LoadedAt(p.regs, cs, n, 2);
    SmallintRoundTrip(d.bus); SmallintRoundTrip(d.addr); SmallintRoundTrip(d.reg);
  }

  lemma QueuedFrom(s: Sys, t: Trace, f: Flow)
    requires FlowInv(s, t, f)
    ensures var q := s.procs[|f.sensors|].c.mailbox;
            && q.Valid()
            && forall k :: 0 <= k < |q.Contents()| ==>
                 IsDuty(q.Contents()[k], Channel(f)) || q.Contents()[k] in Posts(t, |f.sensors|)
  {
    var n := |f.sensors|;
    assert ConservedAt(s, t, n);
    var q := s.procs[n].c.mailbox.Contents();
    AcceptedFrom(t, n, Channel(f));
    forall k | 0 <= k < |q|
      ensures IsDuty(q[k], Channel(f)) || q[k] in Posts(t, n)
    {
      assert AcceptedBy(t, n)[|ReceivedBy(t, n)| + k] == q[k];
      assert q[k] in AcceptedBy(t, n);
    }
  }
}
