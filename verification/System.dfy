// The process table, SEND, the run loop and the round-robin scheduler
// (mb_scheduler.c, the end of SEND in mb_vm.c:408-431, mb_proc_run).
//
// Every action also returns the events it consists of.  The properties of all
// runs are proved for every instruction set m with the discipline of
// Machine.Tame.
module System {
  import opened Term
  import opened Commands
  import opened Mailbox
  import opened Bytecode
  import opened Machine

  const SLOTS := 8

  datatype Sys = Sys(procs: seq<Proc>, current: nat, count: nat) {
    ghost predicate Shaped() {
      |procs| == SLOTS && current < SLOTS && forall i :: 0 <= i < SLOTS ==> procs[i].Shaped()
    }
  }

  // A slot as memset leaves it.
  function Blank(capacity: nat): Proc
    requires capacity <= MAX_SPACE
  {
    Spawned(0, [], capacity).(c := Spawned(0, [], capacity).c.(state := Free))
  }

  // mb_sched_init.
  function Initial(capacity: nat): (s: Sys)
    requires capacity <= MAX_SPACE
    ensures |s.procs| == SLOTS && forall i :: 0 <= i < SLOTS ==> s.procs[i] == Blank(capacity)
  {
    Sys(seq(SLOTS, _ => Blank(capacity)), 0, 0)
  }

  // mb_sched_proc: the slot of a PID, or SLOTS when there is no such process.
  function Lookup(s: Sys, pid: nat): (i: nat)
    requires |s.procs| == SLOTS
    ensures i < SLOTS ==> i == pid - 1 && !s.procs[i].c.state.Free?
  {
    if pid == 0 || pid > SLOTS || s.procs[pid - 1].c.state.Free? then SLOTS else pid - 1
  }

  // mb_sched_send, and the body of SEND once the receiver is known.
  function Post(s: Sys, pid: nat, cmd: Command): (r: (Sys, Status))
    requires |s.procs| == SLOTS
    ensures |r.0.procs| == SLOTS
  {
    var k := Lookup(s, pid);
    if k == SLOTS then (s, BadPid)
    else
      var (c, st) := Accept(s.procs[k].c, cmd);
      (s.(procs := s.procs[k := s.procs[k].(c := c)]), st)
  }

  // What happened, as far as scheduling and mail are concerned.
  datatype Event =
    | Dispatched(slot: nat)
    | Plain(slot: nat)
    | Received(slot: nat, cmd: Command)
    | Sent(slot: nat, receiver: nat, cmd: Command)
    | Bounced(slot: nat, pid: nat, cmd: Command)
    | Posted(receiver: nat, cmd: Command)
    | Refused(pid: nat, status: Status)
    | Started(slot: nat)
  {
    // The event is one instruction of process i.
    predicate IsInstruction(i: nat) { (Plain? || Received? || Sent? || Bounced?) && slot == i }

    predicate IsAcceptance(j: nat) { (Sent? || Posted?) && receiver == j }

    predicate IsReceipt(j: nat) { Received? && slot == j }
  }

  // The events so far, latest last.
  datatype Trace = Start | Then(before: Trace, ev: Event)

  datatype Stepped = Crash | Stepped(s: Sys, status: Status, ev: Event)

  // One instruction of process i, SEND included.
  function StepSlot(m: Stepper, s: Sys, i: nat, io: Io): (r: Stepped)
    requires |s.procs| == SLOTS && i < SLOTS
    ensures r.Stepped? ==> |r.s.procs| == SLOTS && r.ev.IsInstruction(i)
    ensures r.Stepped? ==>
              var n := r.s.procs[i].c.reductions; n == s.procs[i].c.reductions || n == REDUCTIONS
  {
    match m(s.procs[i], io)
    case Undefined => Crash
    case Did(p, st) => Stepped(s.(procs := s.procs[i := p]), st, MailEvent(i, s.procs[i].c.mailbox, p.c.mailbox))
    case Sends(p, rPid, target, cmd) =>
      var (s', st) := Post(s.(procs := s.procs[i := p]), target, cmd);
      Stepped(Reply(s', i, rPid, st), Ok, if st.Ok? then Sent(i, target - 1, cmd) else Bounced(i, target, cmd))
  }

  function MailEvent(i: nat, before: Ring, after: Ring): (ev: Event)
    ensures ev.IsInstruction(i)
  {
    if after != before && RingPop(before).Popped? then Received(i, RingPop(before).cmd) else Plain(i)
  }

  function Reply(s: Sys, i: nat, rPid: nat, st: Status): Sys
    requires i < |s.procs|
  {
    var p := s.procs[i];
    s.(procs := s.procs[i := p.(regs := WriteAll(p.regs, [Write(rPid, MakeSmallint(st.Code()))]))])
  }

  function SetBudget(s: Sys, i: nat, n: nat): Sys
    requires i < |s.procs|
  {
    s.(procs := s.procs[i := s.procs[i].(c := s.procs[i].c.(reductions := n))])
  }

  // The table when slot k gets its turn.
  function Turn(s: Sys, k: nat): (s': Sys)
    requires |s.procs| == SLOTS && k < SLOTS
    ensures |s'.procs| == SLOTS
  {
    SetBudget(s.(current := (k + 1) % SLOTS), k, 0)
  }

  // A call of mb_proc_run for slot i executes another instruction.
  predicate GoesOn(s: Sys, i: nat, maxSteps: nat) {
    |s.procs| == SLOTS && i < SLOTS && !s.procs[i].c.halted && s.procs[i].c.reductions < maxSteps
  }

  // From s the loop executes an instruction and comes round to s'.
  ghost predicate Round(m: Stepper, i: nat, hal: nat -> Io, s: Sys, s': Sys) {
    && |s.procs| == SLOTS && i < SLOTS
    && var r := StepSlot(m, s, i, hal(s.procs[i].c.reductions));
       && r.Stepped? && r.status.Ok? && r.s.procs[i].c.state.Ready?
       && s' == SetBudget(r.s, i, r.s.procs[i].c.reductions + 1)
  }

  datatype Ran = Broken | Ran(s: Sys, status: Status, trace: Trace)

  // The loop of mb_proc_run.  It ends for every program because max_steps is
  // at most 65: YIELD sets the count to 64, never below the bound again.
  function Loop(m: Stepper, s: Sys, i: nat, maxSteps: nat, hal: nat -> Io, t: Trace): (r: Ran)
    requires |s.procs| == SLOTS && i < SLOTS && maxSteps <= REDUCTIONS + 1
    ensures r.Ran? ==> |r.s.procs| == SLOTS
    decreases BudgetLeft(s, i, maxSteps)
  {
    var n := s.procs[i].c.reductions;
    if s.procs[i].c.halted || n >= maxSteps then Ran(s, Ok, t) else
      match StepSlot(m, s, i, hal(n))
      case Crash => Broken
      case Stepped(s1, st, ev) =>
        var t1 := Then(t, ev);
        if !st.Ok? || !s1.procs[i].c.state.Ready? then Ran(s1, st, t1)
        else
          var n1 := s1.procs[i].c.reductions + 1;
          Loop(m, SetBudget(s1, i, n1), i, maxSteps, hal, t1)
  }

  function BudgetLeft(s: Sys, i: nat, maxSteps: nat): nat
    requires i < |s.procs|
  {
    if s.procs[i].c.reductions < maxSteps then maxSteps - s.procs[i].c.reductions else 0
  }

  // mb_proc_run.
  function RunProcess(m: Stepper, s: Sys, i: nat, maxSteps: nat, hal: nat -> Io, t: Trace): (r: Ran)
    requires |s.procs| == SLOTS && i < SLOTS && maxSteps <= REDUCTIONS + 1
    ensures r.Ran? ==> |r.s.procs| == SLOTS
  {
    Loop(m, SetBudget(s, i, 0), i, maxSteps, hal, t)
  }

  function WakeOne(p: Proc, now: Word): Proc {
    if p.c.state.Sleeping? && now >= p.c.sleepUntil then p.(c := p.c.(state := Ready)) else p
  }

  // mb_sched_wake_sleepers.
  function Wake(s: Sys, now: Word): (s': Sys)
    ensures |s'.procs| == |s.procs|
    ensures forall i :: 0 <= i < |s.procs| ==> s'.procs[i] == WakeOne(s.procs[i], now)
  {
    s.(procs := seq(|s.procs|, i requires 0 <= i < |s.procs| => WakeOne(s.procs[i], now)))
  }

  // The first READY slot at distance i or more from current, or SLOTS.
  function Pick(s: Sys, i: nat): (k: nat)
    requires |s.procs| == SLOTS && i <= SLOTS
    ensures k <= SLOTS
    ensures k < SLOTS ==> s.procs[k].c.state.Ready?
    decreases SLOTS - i
  {
    if i == SLOTS then SLOTS
    else if s.procs[(s.current + i) % SLOTS].c.state.Ready? then (s.current + i) % SLOTS
    else Pick(s, i + 1)
  }

  // mb_sched_tick.
  function Tick(m: Stepper, s: Sys, now: Word, hal: nat -> Io, t: Trace): (r: Ran)
    requires |s.procs| == SLOTS
    ensures r.Ran? ==> |r.s.procs| == SLOTS
  {
    var s1 := Wake(s, now);
    var k := Pick(s1, 0);
    if k == SLOTS then Ran(s1, SchedIdle, t)
    else RunProcess(m, s1.(current := (k + 1) % SLOTS), k, REDUCTIONS, hal, Then(t, Dispatched(k)))
  }

  // The first FREE slot from i on, or SLOTS.
  function FirstFree(s: Sys, i: nat): (k: nat)
    requires |s.procs| == SLOTS && i <= SLOTS
    ensures i <= k <= SLOTS
    ensures k < SLOTS ==> s.procs[k].c.state.Free?
    ensures forall j :: i <= j < k ==> !s.procs[j].c.state.Free?
    decreases SLOTS - i
  {
    if i == SLOTS || s.procs[i].c.state.Free? then i else FirstFree(s, i + 1)
  }

  // mb_sched_spawn, with the PID it returns; 0 when the table is full.
  function SpawnProcess(s: Sys, program: seq<Byte>): (r: (Sys, nat))
    requires |s.procs| == SLOTS
    ensures |r.0.procs| == SLOTS
  {
    var k := FirstFree(s, 0);
    if k == SLOTS then (s, 0)
    else
      (s.(procs := s.procs[k := Spawned(k + 1, program, |s.procs[k].heap.from|)], count := s.count + 1), k + 1)
  }

  // What the world can do to the scheduler.
  datatype Action =
    | DoTick(now: Word, hal: nat -> Io)
    | DoSend(pid: nat, cmd: Command)
    | DoSpawn(program: seq<Byte>)

  // An action after the events t, with the code it returns.
  function Act(m: Stepper, s: Sys, a: Action, t: Trace): (r: Ran)
    requires |s.procs| == SLOTS
    ensures r.Ran? ==> |r.s.procs| == SLOTS
  {
    match a
    case DoTick(now, hal) => Tick(m, s, now, hal, t)
    case DoSend(pid, cmd) =>
      var (s', st) := Post(s, pid, cmd);
      Ran(s', st, Then(t, if st.Ok? then Posted(pid - 1, cmd) else Refused(pid, st)))
    case DoSpawn(program) =>
      var (s', pid) := SpawnProcess(s, program);
      if pid == 0 then Ran(s', ProcTableFull, t) else Ran(s', Ok, Then(t, Started(pid - 1)))
  }

  // A whole history.  Its status is the first one that is neither OK nor
  // IDLE, or OK.
  function Perform(m: Stepper, s: Sys, acts: seq<Action>, t: Trace): (r: Ran)
    requires |s.procs| == SLOTS
    ensures r.Ran? ==> |r.s.procs| == SLOTS
    decreases |acts|
  {
    if acts == [] then Ran(s, Ok, t) else
      match Act(m, s, acts[0], t)
      case Broken => Broken
      case Ran(s1, st, t1) =>
        match Perform(m, s1, acts[1..], t1)
        case Broken => Broken
        case Ran(s2, st2, t2) => Ran(s2, if st.Ok? || st.SchedIdle? then st2 else st, t2)
  }
}
