// What a history does to one slot is a run of that process alone: its own
// instructions, interleaved with deliveries, wake-ups and new budgets.  So the
// machine on trees is the meaning of every process in the table.
module Projection {
  import opened Term
  import opened Commands
  import opened Bytecode
  import opened Machine
  import opened TreeMachine
  import opened Refinement
  import opened Runs
  import opened System
  import opened TableSafety
  import opened Scheduling

  // ---- runs of one process ----

  // How many of the inputs are instructions.
  function StepsIn(inputs: seq<Input>): nat {
    if inputs == [] then 0 else (if inputs[0].Instruction? then 1 else 0) + StepsIn(inputs[1..])
  }

  // The commands they deliver.
  function MailIn(inputs: seq<Input>): seq<Command> {
    if inputs == [] then [] else (if inputs[0].Deliver? then [inputs[0].cmd] else []) + MailIn(inputs[1..])
  }

  // The inputs, n instructions and the deliveries of mail among them, take p
  // to p'; if g is set, every collection on the way is one that CollectSafe
  // allows.
  ghost predicate Goes(p: Proc, inputs: seq<Input>, p': Proc, n: nat, mail: seq<Command>, g: bool) {
    Run(p, inputs) == Reacted(p') && StepsIn(inputs) == n && MailIn(inputs) == mail && (g ==> Guarded(p, inputs))
  }

  lemma {:induction false} GoesFurther(p: Proc, a: seq<Input>, p1: Proc, n: nat, mail: seq<Command>,
      b: seq<Input>, p2: Proc, k: nat, more: seq<Command>, g: bool)
    requires Goes(p, a, p1, n, mail, g) && Goes(p1, b, p2, k, more, g)
    ensures Goes(p, a + b, p2, n + k, mail + more, g)
    decreases |a|
  {
    if a == [] {
      assert a + b == b && mail + more == more;
    } else {
      var first, rest := a[0], a[1..];
      assert (a + b)[0] == first && (a + b)[1..] == rest + b;
      GoesFurther(React(p, first).p, rest, p1, StepsIn(rest), MailIn(rest), b, p2, k, more, g);
      var head := if first.Deliver? then [first.cmd] else [];
      assert head + (MailIn(rest) + more) == head + MailIn(rest) + more;
    }
  }

  lemma GoesOnce(p: Proc, input: Input, g: bool)
    requires React(p, input).Reacted? && (g && input.Instruction? ==> CollectSafe(p, Next(p)))
    ensures Goes(p, [input], React(p, input).p, if input.Instruction? then 1 else 0,
                 if input.Deliver? then [input.cmd] else [], g)
  {
    assert [input][1..] == [];
  }

  // ---- one slot ----

  // The commands accepted for process j between t and t'.
  function MailSince(t: Trace, t': Trace, j: nat): seq<Command>
    requires AcceptedBy(t, j) <= AcceptedBy(t', j)
  {
    AcceptedBy(t', j)[|AcceptedBy(t, j)|..]
  }

  // What becomes of slot j, with what is added to the trace; a FREE slot
  // stays as it is, and a used one does not become FREE.
  ghost predicate SlotGoes(s: Sys, t: Trace, s': Sys, t': Trace, j: nat, inputs: seq<Input>, g: bool) {
    && j < SLOTS && |s.procs| == SLOTS && |s'.procs| == SLOTS
    && StepsOf(t, j) <= StepsOf(t', j) && AcceptedBy(t, j) <= AcceptedBy(t', j)
    && Goes(s.procs[j], inputs, s'.procs[j], StepsOf(t', j) - StepsOf(t, j), MailSince(t, t', j), g)
    && (s.procs[j].c.state.Free? ==>
          s'.procs[j] == s.procs[j] && StepsOf(t', j) == StepsOf(t, j) && AcceptedBy(t', j) == AcceptedBy(t, j))
    && (s'.procs[j].c.state.Free? ==> s.procs[j].c.state.Free?)
  }

  lemma SlotJoin(s: Sys, t: Trace, s1: Sys, t1: Trace, s2: Sys, t2: Trace, j: nat, a: seq<Input>, b: seq<Input>,
      g: bool)
    requires SlotGoes(s, t, s1, t1, j, a, g) && SlotGoes(s1, t1, s2, t2, j, b, g)
    ensures SlotGoes(s, t, s2, t2, j, a + b, g)
  {
    var n, k := StepsOf(t1, j) - StepsOf(t, j), StepsOf(t2, j) - StepsOf(t1, j);
    var mail, more := MailSince(t, t1, j), MailSince(t1, t2, j);
    assert MailSince(t, t2, j) == mail + more;
    GoesFurther(s.procs[j], a, s1.procs[j], n, mail, b, s2.procs[j], k, more, g);
  }

  // Slot j is not concerned.
  lemma SlotStays(s: Sys, t: Trace, s': Sys, t': Trace, j: nat, g: bool)
    requires j < SLOTS && |s.procs| == SLOTS && |s'.procs| == SLOTS && s'.procs[j] == s.procs[j]
    requires StepsOf(t', j) == StepsOf(t, j) && AcceptedBy(t', j) == AcceptedBy(t, j)
    ensures SlotGoes(s, t, s', t', j, [], g)
  {
    assert MailSince(t, t', j) == [];
  }

  // Slot j takes one input.
  lemma SlotTakes(s: Sys, t: Trace, s': Sys, t': Trace, j: nat, input: Input, g: bool)
    requires j < SLOTS && |s.procs| == SLOTS && |s'.procs| == SLOTS && !s.procs[j].c.state.Free?
    requires React(s.procs[j], input) == Reacted(s'.procs[j]) && !s'.procs[j].c.state.Free?
    requires g && input.Instruction? ==> CollectSafe(s.procs[j], Next(s.procs[j]))
    requires StepsOf(t', j) == StepsOf(t, j) + if input.Instruction? then 1 else 0
    requires AcceptedBy(t', j) == AcceptedBy(t, j) + if input.Deliver? then [input.cmd] else []
    ensures SlotGoes(s, t, s', t', j, [input], g)
  {
    GoesOnce(s.procs[j], input, g);
    assert MailSince(t, t', j) == if input.Deliver? then [input.cmd] else [];
  }

  // A post, with no instruction of j: what is accepted is delivered.
  lemma PostProjects(s: Sys, t: Trace, pid: nat, cmd: Command, t': Trace, j: nat, g: bool) returns (inputs: seq<Input>)
    requires |s.procs| == SLOTS && j < SLOTS && StepsOf(t', j) == StepsOf(t, j)
    requires AcceptedBy(t', j) == AcceptedBy(t, j) + if Post(s, pid, cmd).1.Ok? && pid == j + 1 then [cmd] else []
    ensures SlotGoes(s, t, Post(s, pid, cmd).0, t', j, inputs, g)
  {
    var (s', st) := Post(s, pid, cmd);
    if st.Ok? && pid == j + 1 {
      SlotTakes(s, t, s', t', j, Deliver(cmd), g);
      inputs := [Deliver(cmd)];
    } else {
      SlotStays(s, t, s', t', j, g);
      inputs := [];
    }
  }

  // ---- one instruction ----

  // Slot j when slot i executes an instruction of m.
  ghost predicate ProjectsAt(m: Stepper, s: Sys, t: Trace, i: nat, io: Io, j: nat, g: bool) {
    && |s.procs| == SLOTS && i < SLOTS && j < SLOTS && StepSlot(m, s, i, io).Stepped? && !s.procs[i].c.state.Free?
    && (g && i == j ==> CollectSafe(s.procs[i], Next(s.procs[i]))) ==>
      var r := StepSlot(m, s, i, io);
      exists inputs :: SlotGoes(s, t, r.s, Then(t, r.ev), j, inputs, g)
  }

  ghost predicate Projects(m: Stepper) { forall s, t, i: nat, io, j: nat, g :: ProjectsAt(m, s, t, i, io, j, g) }

  lemma DidProjects(s: Sys, t: Trace, i: nat, io: Io, j: nat, g: bool, p: Proc, st: Status) returns (inputs: seq<Input>)
    requires |s.procs| == SLOTS && i < SLOTS && j < SLOTS && Step(s.procs[i], io) == Did(p, st)
    requires !s.procs[i].c.state.Free?
    requires g && i == j ==> CollectSafe(s.procs[i], Next(s.procs[i]))
    ensures var ev := MailEvent(i, s.procs[i].c.mailbox, p.c.mailbox);
            SlotGoes(s, t, s.(procs := s.procs[i := p]), Then(t, ev), j, inputs, g)
  {
    var s', t' := s.(procs := s.procs[i := p]), Then(t, MailEvent(i, s.procs[i].c.mailbox, p.c.mailbox));
    if i == j {
      SlotTakes(s, t, s', t', j, Instruction(io, Ok), g);
      inputs := [Instruction(io, Ok)];
    } else {
      SlotStays(s, t, s', t', j, g);
      inputs := [];
    }
  }

  // The process that sends, to somebody else or to itself: it is told first
  // and delivered to afterwards.
  lemma OwnSend(s: Sys, t: Trace, i: nat, io: Io, g: bool, r: Outcome, s': Sys, t': Trace, st: Status)
      returns (inputs: seq<Input>)
    requires |s.procs| == SLOTS == |s'.procs| && i < SLOTS && Step(s.procs[i], io) == r && r.Sends?
    requires !s.procs[i].c.state.Free? && (g ==> CollectSafe(s.procs[i], Next(s.procs[i])))
    requires var mine := st.Ok? && r.target == i + 1;
             var p := Told(r.p, r.rPid, st);
             && s'.procs[i] == (if mine then p.(c := Accept(p.c, r.cmd).0) else p)
             && AcceptedBy(t', i) == AcceptedBy(t, i) + if mine then [r.cmd] else []
    requires StepsOf(t', i) == StepsOf(t, i) + 1
    ensures SlotGoes(s, t, s', t', i, inputs, g)
  {
    var s1, t1 := s.(procs := s.procs[i := Told(r.p, r.rPid, st)]), Then(t, Plain(i));
    inputs := [Instruction(io, st)];
    SlotTakes(s, t, s1, t1, i, Instruction(io, st), g);
    if st.Ok? && r.target == i + 1 {
      SlotTakes(s1, t1, s', t', i, Deliver(r.cmd), g);
      SlotJoin(s, t, s1, t1, s', t', i, inputs, [Deliver(r.cmd)], g);
      inputs := inputs + [Deliver(r.cmd)];
    }
  }

  lemma SendProjects(s: Sys, t: Trace, i: nat, io: Io, j: nat, g: bool, r: Outcome, ev: Event)
      returns (inputs: seq<Input>)
    requires |s.procs| == SLOTS && i < SLOTS && j < SLOTS && Step(s.procs[i], io) == r && r.Sends?
    requires !s.procs[i].c.state.Free? && ev.IsInstruction(i)
    requires g && i == j ==> CollectSafe(s.procs[i], Next(s.procs[i]))
    requires var (s1, st) := Post(s.(procs := s.procs[i := r.p]), r.target, r.cmd);
             ev == if st.Ok? then Sent(i, r.target - 1, r.cmd) else Bounced(i, r.target, r.cmd)
    ensures var (s1, st) := Post(s.(procs := s.procs[i := r.p]), r.target, r.cmd);
            SlotGoes(s, t, Reply(s1, i, r.rPid, st), Then(t, ev), j, inputs, g)
  {
    var s0 := s.(procs := s.procs[i := r.p]);
    var (s1, st) := Post(s0, r.target, r.cmd);
    if i != j {
      inputs := PostProjects(s0, t, r.target, r.cmd, Then(t, ev), j, g);
    } else {
      inputs := OwnSend(s, t, i, io, g, r, Reply(s1, i, r.rPid, st), Then(t, ev), st);
    }
  }

  lemma MachineProjects()
    ensures Projects(Step)
  {
    forall s, t, i: nat, io, j: nat, g
      ensures ProjectsAt(Step, s, t, i, io, j, g)
    {
      if && |s.procs| == SLOTS && i < SLOTS && j < SLOTS && StepSlot(Step, s, i, io).Stepped?
        && !s.procs[i].c.state.Free?
         && (g && i == j ==> CollectSafe(s.procs[i], Next(s.procs[i]))) {
        var r := Step(s.procs[i], io);
        if r.Did? {
          var inputs := DidProjects(s, t, i, io, j, g, r.p, r.status);
        } else {
          var inputs := SendProjects(s, t, i, io, j, g, r, StepSlot(Step, s, i, io).ev);
        }
      }
    }
  }

  // ---- a tick ----

  lemma BudgetProjects(s: Sys, t: Trace, i: nat, n: nat, j: nat, g: bool) returns (inputs: seq<Input>)
    requires |s.procs| == SLOTS && i < SLOTS && j < SLOTS && !s.procs[i].c.state.Free?
    ensures SlotGoes(s, t, SetBudget(s, i, n), t, j, inputs, g)
  {
    if i == j {
      SlotTakes(s, t, SetBudget(s, i, n), t, j, Budget(n), g);
      inputs := [Budget(n)];
    } else {
      SlotStays(s, t, SetBudget(s, i, n), t, j, g);
      inputs := [];
    }
  }

  // One round of the loop of process i.
  lemma RoundProjects(m: Stepper, s: Sys, t: Trace, i: nat, hal: nat -> Io, j: nat, g: bool, step: Stepped)
      returns (inputs: seq<Input>)
    requires Projects(m) && GoesOn(s, i, REDUCTIONS) && j < SLOTS && !s.procs[i].c.state.Free?
    requires step == StepSlot(m, s, i, hal(s.procs[i].c.reductions)) && step.Stepped?
    requires g ==> CollectSafe(s.procs[i], Next(s.procs[i]))
    ensures SlotGoes(s, t, step.s, Then(t, step.ev), j, inputs, g)
  {
    assert ProjectsAt(m, s, t, i, hal(s.procs[i].c.reductions), j, g);
    inputs :| SlotGoes(s, t, step.s, Then(t, step.ev), j, inputs, g);
  }

  lemma {:induction false} LoopProjects(m: Stepper, s: Sys, t: Trace, i: nat, hal: nat -> Io, j: nat, g: bool, r: Ran)
      returns (inputs: seq<Input>)
    requires Projects(m) && |s.procs| == SLOTS && i < SLOTS && j < SLOTS && !s.procs[i].c.state.Free?
    requires r == Loop(m, s, i, REDUCTIONS, hal, t) && r.Ran?
    requires g ==> GuardedLoop(m, SafeCollections(), s, i, REDUCTIONS, hal)
    ensures SlotGoes(s, t, r.s, r.trace, j, inputs, g)
    decreases BudgetLeft(s, i, REDUCTIONS)
  {
    inputs := [];
    if GoesOn(s, i, REDUCTIONS) {
      var step := LoopGoesOn(m, s, t, i, REDUCTIONS, hal, r);
      inputs := RoundProjects(m, s, t, i, hal, j, g, step);
      if step.status.Ok? && step.s.procs[i].c.state.Ready? {
        var c := step.s.procs[i].c.reductions + 1;
        var next, t1 := SetBudget(step.s, i, c), Then(t, step.ev);
        var budget := BudgetProjects(step.s, t1, i, c, j, g);
        if g {
          GuardGoesOn(m, SafeCollections(), s, i, REDUCTIONS, hal, next);
        }
        var rest := LoopProjects(m, next, t1, i, hal, j, g, r);
        SlotJoin(s, t, step.s, t1, next, t1, j, inputs, budget, g);
        SlotJoin(s, t, next, t1, r.s, r.trace, j, inputs + budget, rest, g);
        inputs := inputs + budget + rest;
      }
    } else {
      SlotStays(s, t, s, t, j, g);
    }
  }

  lemma WakeProjects(s: Sys, t: Trace, now: Word, j: nat, g: bool) returns (inputs: seq<Input>)
    requires |s.procs| == SLOTS && j < SLOTS
    ensures SlotGoes(s, t, Wake(s, now), t, j, inputs, g)
  {
    if Wake(s, now).procs[j] != s.procs[j] {
      SlotTakes(s, t, Wake(s, now), t, j, WakeUp, g);
      inputs := [WakeUp];
    } else {
      SlotStays(s, t, Wake(s, now), t, j, g);
      inputs := [];
    }
  }

  lemma TurnProjects(s: Sys, t: Trace, k: nat, j: nat, g: bool) returns (inputs: seq<Input>)
    requires |s.procs| == SLOTS && k < SLOTS && j < SLOTS && !s.procs[k].c.state.Free?
    ensures SlotGoes(s, t, Turn(s, k), Then(t, Dispatched(k)), j, inputs, g)
  {
    inputs := BudgetProjects(s, Then(t, Dispatched(k)), k, 0, j, g);
  }

  lemma TickProjects(m: Stepper, s: Sys, t: Trace, now: Word, hal: nat -> Io, j: nat, g: bool, r: Ran)
      returns (inputs: seq<Input>)
    requires Projects(m) && |s.procs| == SLOTS && j < SLOTS && r == Tick(m, s, now, hal, t) && r.Ran?
    requires g ==> GuardedTick(m, SafeCollections(), s, now, hal)
    ensures SlotGoes(s, t, r.s, r.trace, j, inputs, g)
  {
    var s1 := Wake(s, now);
    var k := Pick(s1, 0);
    inputs := WakeProjects(s, t, now, j, g);
    if k < SLOTS {
      var s2, t2 := Turn(s1, k), Then(t, Dispatched(k));
      var turn := TurnProjects(s1, t, k, j, g);
      TickIsLoop(m, s, t, now, hal, k);
      var slice := LoopProjects(m, s2, t2, k, hal, j, g, r);
      SlotJoin(s, t, s1, t, s2, t2, j, inputs, turn, g);
      SlotJoin(s, t, s2, t2, r.s, r.trace, j, inputs + turn, slice, g);
      inputs := inputs + turn + slice;
    }
  }

  // ---- histories ----

  lemma SpawnElsewhere(m: Stepper, s: Sys, t: Trace, program: seq<Byte>, j: nat, r: Ran)
    requires |s.procs| == SLOTS && j < SLOTS && r == Act(m, s, DoSpawn(program), t) && FirstFree(s, 0) != j
    ensures r.Ran? && |r.s.procs| == SLOTS && r.s.procs[j] == s.procs[j]
    ensures StepsOf(r.trace, j) == StepsOf(t, j) && AcceptedBy(r.trace, j) == AcceptedBy(t, j)
  {
  }

  // An action, other than a spawn into slot j.
  lemma ActProjects(m: Stepper, s: Sys, t: Trace, a: Action, j: nat, g: bool, r: Ran) returns (inputs: seq<Input>)
    requires Projects(m) && |s.procs| == SLOTS && j < SLOTS && r == Act(m, s, a, t) && r.Ran?
    requires a.DoTick? && g ==> GuardedTick(m, SafeCollections(), s, a.now, a.hal)
    requires a.DoSpawn? ==> FirstFree(s, 0) != j
    ensures SlotGoes(s, t, r.s, r.trace, j, inputs, g)
  {
    match a
    case DoTick(now, hal) => inputs := TickProjects(m, s, t, now, hal, j, g, r);
    case DoSend(pid, cmd) => inputs := PostProjects(s, t, pid, cmd, r.trace, j, g);
    case DoSpawn(program) =>
      inputs := [];
      SpawnElsewhere(m, s, t, program, j, r);
      SlotStays(s, t, r.s, r.trace, j, g);
  }

  // The guard of a history.
  ghost predicate Guards(m: Stepper, s: Sys, acts: seq<Action>, t: Trace, g: bool)
    requires |s.procs| == SLOTS
  {
    g ==> GuardedHistory(m, SafeCollections(), s, acts, t)
  }

  lemma GuardsFirst(m: Stepper, s: Sys, acts: seq<Action>, t: Trace, g: bool, r: Ran)
    requires |s.procs| == SLOTS && acts != [] && Guards(m, s, acts, t, g) && r == Act(m, s, acts[0], t) && r.Ran?
    ensures acts[0].DoTick? && g ==> GuardedTick(m, SafeCollections(), s, acts[0].now, acts[0].hal)
    ensures Guards(m, r.s, acts[1..], r.trace, g)
  {
  }

  // The run of a used slot, in any history that does not break.
  lemma {:induction false} HistoryProjects(m: Stepper, s: Sys, t: Trace, acts: seq<Action>, j: nat, g: bool, r: Ran)
      returns (inputs: seq<Input>)
    requires Projects(m) && |s.procs| == SLOTS && j < SLOTS && !s.procs[j].c.state.Free? && Guards(m, s, acts, t, g)
    requires r == Perform(m, s, acts, t) && r.Ran?
    ensures SlotGoes(s, t, r.s, r.trace, j, inputs, g)
    decreases |acts|
  {
    inputs := [];
    if acts == [] {
      SlotStays(s, t, s, t, j, g);
    } else {
      var first, rest := Act(m, s, acts[0], t), acts[1..];
      var last := Perform(m, first.s, rest, first.trace);
      PerformFirst(m, s, acts, t, first.s, first.status, first.trace, last);
      GuardsFirst(m, s, acts, t, g, first);
      inputs := ActProjects(m, s, t, acts[0], j, g, first);
      var more := HistoryProjects(m, first.s, first.trace, rest, j, g, last);
      SlotJoin(s, t, first.s, first.trace, last.s, last.trace, j, inputs, more, g);
      inputs := inputs + more;
    }
  }

  // ---- from power-up ----

  // The slot is as power-up left it, or runs a program spawned into it.
  ghost predicate SlotRuns(p: Proc, capacity: nat, acts: seq<Action>, j: nat, program: seq<Byte>, inputs: seq<Input>,
                           t: Trace, g: bool) {
    capacity <= MAX_SPACE &&
    if p.c.state.Free? then p == Blank(capacity)
    else
      && DoSpawn(program) in acts
      && Goes(Spawned(j + 1, program, capacity), inputs, p, StepsOf(t, j), AcceptedBy(t, j), g)
  }

  // A spawn into slot j.
  lemma SpawnFills(m: Stepper, s: Sys, t: Trace, program: seq<Byte>, j: nat, capacity: nat) returns (first: Ran)
    requires |s.procs| == SLOTS && j < SLOTS && capacity <= MAX_SPACE && s.procs[j] == Blank(capacity)
    requires FirstFree(s, 0) == j
    ensures first == Act(m, s, DoSpawn(program), t) && first.Ran? && |first.s.procs| == SLOTS
    ensures first.s.procs[j] == Spawned(j + 1, program, capacity)
    ensures StepsOf(first.trace, j) == StepsOf(t, j) && AcceptedBy(first.trace, j) == AcceptedBy(t, j)
  {
    first := Act(m, s, DoSpawn(program), t);
  }

  // What follows it.
  lemma SpawnedRuns(s: Sys, t: Trace, r: Ran, acts: seq<Action>, j: nat, g: bool, capacity: nat,
      program: seq<Byte>, inputs: seq<Input>)
    requires capacity <= MAX_SPACE && DoSpawn(program) in acts && r.Ran? && SlotGoes(s, t, r.s, r.trace, j, inputs, g)
    requires s.procs[j] == Spawned(j + 1, program, capacity) && StepsOf(t, j) == 0 && AcceptedBy(t, j) == []
    ensures SlotRuns(r.s.procs[j], capacity, acts, j, program, inputs, r.trace, g)
  {
    assert MailSince(t, r.trace, j) == AcceptedBy(r.trace, j);
  }

  lemma SpawnedProjects(m: Stepper, s: Sys, t: Trace, acts: seq<Action>, j: nat, g: bool, capacity: nat, r: Ran)
      returns (program: seq<Byte>, inputs: seq<Input>)
    requires Projects(m) && |s.procs| == SLOTS && j < SLOTS && capacity <= MAX_SPACE && s.procs[j] == Blank(capacity)
    requires StepsOf(t, j) == 0 && AcceptedBy(t, j) == []
    requires acts != [] && acts[0].DoSpawn? && FirstFree(s, 0) == j
    requires Guards(m, s, acts, t, g) && r == Perform(m, s, acts, t) && r.Ran?
    ensures SlotRuns(r.s.procs[j], capacity, acts, j, program, inputs, r.trace, g)
  {
    program := acts[0].program;
    var rest := acts[1..];
    var first := SpawnFills(m, s, t, program, j, capacity);
    var last := Perform(m, first.s, rest, first.trace);
    PerformFirst(m, s, acts, t, first.s, first.status, first.trace, last);
    GuardsFirst(m, s, acts, t, g, first);
    inputs := HistoryProjects(m, first.s, first.trace, rest, j, g, last);
    assert DoSpawn(program) == acts[0];
    SpawnedRuns(first.s, first.trace, last, acts, j, g, capacity, program, inputs);
  }

  lemma {:induction false} BlankProjects(m: Stepper, s: Sys, t: Trace, acts: seq<Action>, j: nat, g: bool,
      capacity: nat, r: Ran)
      returns (program: seq<Byte>, inputs: seq<Input>)
    requires Projects(m) && |s.procs| == SLOTS && j < SLOTS && capacity <= MAX_SPACE && s.procs[j] == Blank(capacity)
    requires StepsOf(t, j) == 0 && AcceptedBy(t, j) == []
    requires Guards(m, s, acts, t, g) && r == Perform(m, s, acts, t) && r.Ran?
    ensures SlotRuns(r.s.procs[j], capacity, acts, j, program, inputs, r.trace, g)
    decreases |acts|
  {
    program, inputs := [], [];
    if acts == [] {
    } else if acts[0].DoSpawn? && FirstFree(s, 0) == j {
      program, inputs := SpawnedProjects(m, s, t, acts, j, g, capacity, r);
    } else {
      var first, rest := Act(m, s, acts[0], t), acts[1..];
      var last := Perform(m, first.s, rest, first.trace);
      PerformFirst(m, s, acts, t, first.s, first.status, first.trace, last);
      GuardsFirst(m, s, acts, t, g, first);
      var none := ActProjects(m, s, t, acts[0], j, g, first);
      program, inputs := BlankProjects(m, first.s, first.trace, rest, j, g, capacity, last);
    }
  }

  // Every history from power-up that does not break does to each slot what
  // some run of a program spawned into it does, with as many instructions as
  // the trace has of that process, and with exactly the commands accepted for
  // it delivered, in order.
  lemma SlotsRun(capacity: nat, acts: seq<Action>, j: nat) returns (program: seq<Byte>, inputs: seq<Input>)
    requires capacity <= MAX_SPACE && j < SLOTS && Perform(Step, Initial(capacity), acts, Start).Ran?
    ensures var r := Perform(Step, Initial(capacity), acts, Start);
            SlotRuns(r.s.procs[j], capacity, acts, j, program, inputs, r.trace, false)
  {
    ghost var m: Stepper := Step;
    MachineProjects();
    program, inputs := BlankProjects(m, Initial(capacity), Start, acts, j, false, capacity,
      Perform(m, Initial(capacity), acts, Start));
  }

  // A run of a spawned program is the run of the machine on trees, from a
  // state where every register holds 0, told the truth about addresses and
  // room.
  ghost predicate RunsOnTrees(p: Proc, start: Proc, inputs: seq<Input>, hints: seq<Hint>) {
    && |hints| == |inputs| && HintsAlong(start, inputs, hints)
    && var t := TreeRun(TreeProc(start.c, StartTrees()), inputs, hints);
       p.c == t.c && exists objs :: Denoting(p, objs, t.regs)
  }

  lemma SlotRefines(p: Proc, capacity: nat, acts: seq<Action>, j: nat, program: seq<Byte>, inputs: seq<Input>, t: Trace)
      returns (hints: seq<Hint>)
    requires SlotRuns(p, capacity, acts, j, program, inputs, t, true)
    ensures p.c.state.Free? || RunsOnTrees(p, Spawned(j + 1, program, capacity), inputs, hints)
  {
    hints := [];
    if !p.c.state.Free? {
      SpawnedIsSafe(j + 1, program, capacity);
      var objs;
      objs, hints := RunRefines(Spawned(j + 1, program, capacity), map[], StartTrees(), inputs);
    }
  }

  lemma BlankRefines(m: Stepper, s: Sys, acts: seq<Action>, j: nat, capacity: nat, r: Ran)
      returns (program: seq<Byte>, inputs: seq<Input>, hints: seq<Hint>)
    requires Projects(m) && |s.procs| == SLOTS && j < SLOTS && capacity <= MAX_SPACE && s.procs[j] == Blank(capacity)
    requires GuardedHistory(m, SafeCollections(), s, acts, Start) && r == Perform(m, s, acts, Start) && r.Ran?
    ensures SlotRuns(r.s.procs[j], capacity, acts, j, program, inputs, r.trace, true)
    ensures r.s.procs[j].c.state.Free? || RunsOnTrees(r.s.procs[j], Spawned(j + 1, program, capacity), inputs, hints)
  {
    program, inputs := BlankProjects(m, s, Start, acts, j, true, capacity, r);
    hints := SlotRefines(r.s.procs[j], capacity, acts, j, program, inputs, r.trace);
  }

  // So every guarded history from power-up, of any programs, is one of
  // machines on trees: at its end each used slot has the control state of the
  // tree run of its program, and registers that stand for its trees.
  lemma TableRefines(capacity: nat, acts: seq<Action>, j: nat)
      returns (program: seq<Byte>, inputs: seq<Input>, hints: seq<Hint>)
    requires capacity <= MAX_SPACE && j < SLOTS
    requires GuardedHistory(Step, SafeCollections(), Initial(capacity), acts, Start)
    ensures var r := Perform(Step, Initial(capacity), acts, Start);
            && r.Ran? && SlotRuns(r.s.procs[j], capacity, acts, j, program, inputs, r.trace, true)
            && (r.s.procs[j].c.state.Free?
                 || RunsOnTrees(r.s.procs[j], Spawned(j + 1, program, capacity), inputs, hints))
  {
    ghost var m: Stepper := Step;
    MachineProjects();
    TableIsTermSafe(capacity, acts);
    program, inputs, hints :=
      BlankRefines(m, Initial(capacity), acts, j, capacity, Perform(m, Initial(capacity), acts, Start));
  }
}
