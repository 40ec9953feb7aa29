// The scheduler in memory (mb_scheduler.h, mb_scheduler.c): a table of eight
// processes, each owning its registers, mailbox and heap.
module Scheduler {
  import opened Term
  import opened Commands
  import opened Bytecode
  import opened Machine
  import opened System
  import opened Process
  import opened Scheduling

  class Scheduler {
    const procs: seq<Process>
    var current: nat
    var count: nat

    // All the memory of the process table.
    ghost const memory: set<object>

    ghost predicate ApartAt(i: nat, j: nat) {
      i < |procs| && j < |procs| && i != j ==> procs[i].Repr() !! procs[j].Repr()
    }

    ghost predicate OwnsAt(i: nat) {
      i < |procs| ==>
        var p := procs[i];
        && p in memory && p.regs in memory && p.mailbox in memory && p.mailbox.items in memory
        && p.heap in memory && p.heap.spaceA in memory && p.heap.spaceB in memory
    }

    // The table never changes which memory it uses, or how it is divided.
    ghost predicate Divided() {
      && |procs| == SLOTS && this !in memory
      && (forall i: nat :: OwnsAt(i))
      && (forall i: nat, j: nat :: ApartAt(i, j))
    }

    ghost predicate TableValid()
      reads memory
    {
      Divided() && forall i: nat | i < SLOTS :: OwnsAt(i) && procs[i].Valid()
    }

    ghost predicate Valid()
      reads this, memory
    {
      TableValid() && current < SLOTS
    }

    ghost function Table(): (t: seq<Proc>)
      reads memory
      requires TableValid()
      ensures |t| == SLOTS && forall i :: 0 <= i < SLOTS ==> t[i] == procs[i].Model()
    {
      seq(SLOTS, i requires 0 <= i < SLOTS && TableValid() && OwnsAt(i) reads memory => procs[i].Model())
    }

    ghost function Model(): (s: Sys)
      reads this, memory
      requires Valid()
      ensures s.Shaped()
    {
      Sys(Table(), current, count)
    }

    // Changing the memory of slot i only.
    twostate lemma OnlySlot(i: nat)
      requires old(Valid()) && i < SLOTS && current < SLOTS && procs[i].Valid()
      requires forall j :: 0 <= j < SLOTS && j != i ==> procs[j].Untouched()
      ensures Valid() && Table() == old(Table())[i := procs[i].Model()]
    {
      forall j | 0 <= j < SLOTS && j != i
        ensures procs[j].Valid() && procs[j].Model() == old(procs[j].Model())
      {
        procs[j].UntouchedIsSame();
      }
    }

    // One instruction of process i up to the sending of a command.
    method StepOwn(i: nat, io: Io) returns (o: Ended)
      requires Valid() && i < SLOTS && !Machine.Step(Model().procs[i], io).Undefined?
      modifies memory
      ensures Valid()
      ensures var s := old(Model());
              Model() == s.(procs := s.procs[i := Model().procs[i]]) &&
              Machine.Step(s.procs[i], io) ==
                match o
                case Finished(st) => Did(Model().procs[i], st)
                case Sending(rPid, target, cmd) => Sends(Model().procs[i], rPid, target, cmd)
    {
      o := procs[i].Step(io);
      forall j | 0 <= j < SLOTS && j != i
        ensures procs[j].Untouched()
      {
        assert ApartAt(i, j);
      }
      OnlySlot(i);
    }

    // What follows changes one slot each.

    method Deliver(k: nat, cmd: Command) returns (st: Status)
      requires Valid() && k < SLOTS
      modifies memory
      ensures Valid()
      ensures var s := old(Model());
              var (c, r) := Machine.Accept(s.procs[k].c, cmd);
              st == r && Model() == s.(procs := s.procs[k := s.procs[k].(c := c)])
    {
      st := procs[k].Accept(cmd);
      forall j | 0 <= j < SLOTS && j != k
        ensures procs[j].Untouched()
      {
        assert ApartAt(k, j);
      }
      OnlySlot(k);
    }

    method Answer(i: nat, rPid: nat, st: Status)
      requires Valid() && i < SLOTS && rPid < REG_COUNT
      modifies memory
      ensures Valid() && Model() == Reply(old(Model()), i, rPid, st)
    {
      procs[i].Load(rPid, MakeSmallint(st.Code()));
      forall j | 0 <= j < SLOTS && j != i
        ensures procs[j].Untouched()
      {
        assert ApartAt(i, j);
      }
      OnlySlot(i);
    }

    method SetReductions(i: nat, n: nat)
      requires Valid() && i < SLOTS
      modifies memory
      ensures Valid() && Model() == SetBudget(old(Model()), i, n)
    {
      procs[i].reductions := n;
      forall j | 0 <= j < SLOTS && j != i
        ensures procs[j].Untouched()
      {
        assert ApartAt(i, j);
      }
      OnlySlot(i);
    }

    method WakeSlot(i: nat, now: Word)
      requires Valid() && i < SLOTS
      modifies memory
      ensures Valid()
      ensures var s := old(Model()); Model() == s.(procs := s.procs[i := WakeOne(s.procs[i], now)])
    {
      if procs[i].state == Sleeping && now >= procs[i].sleepUntil {
        procs[i].state := Ready;
      }
      forall j | 0 <= j < SLOTS && j != i
        ensures procs[j].Untouched()
      {
        assert ApartAt(i, j);
      }
      OnlySlot(i);
    }

    method InitSlot(k: nat, pid: nat, program: seq<Byte>)
      requires Valid() && k < SLOTS
      modifies memory
      ensures Valid()
      ensures var s := old(Model());
              Model() == s.(procs := s.procs[k := Spawned(pid, program, |s.procs[k].heap.from|)])
    {
      procs[k].Init(pid, program);
      forall j | 0 <= j < SLOTS && j != k
        ensures procs[j].Untouched()
      {
        assert ApartAt(k, j);
      }
      OnlySlot(k);
    }

    // mb_sched_proc: the slot of a PID, or SLOTS.
    method FindProc(pid: nat) returns (k: nat)
      requires Valid()
      ensures k == Lookup(Model(), pid)
    {
      if pid == 0 || pid > SLOTS {
        return SLOTS;
      }
      if procs[pid - 1].state == Free {
        return SLOTS;
      }
      return pid - 1;
    }

    // mb_sched_send.
    method Send(pid: nat, cmd: Command) returns (st: Status)
      requires Valid()
      modifies memory
      ensures Valid() && (Model(), st) == Post(old(Model()), pid, cmd)
    {
      var k := FindProc(pid);
      if k == SLOTS {
        return BadPid;
      }
      st := Deliver(k, cmd);
    }

    // m is the instruction set of Machine; naming it keeps the scheduler's
    // proofs apart from the instructions.
    static ghost predicate Agrees(m: Stepper) {
      forall p, io {:trigger Machine.Step(p, io)} :: m(p, io) == Machine.Step(p, io)
    }

    // mb_proc_step with its scheduler.
    method Step(i: nat, io: Io, ghost m: Stepper, ghost r: Stepped) returns (st: Status)
      requires Valid() && i < SLOTS && Agrees(m) && r.Stepped? && r == StepSlot(m, Model(), i, io)
      modifies memory
      ensures Valid() && Model() == r.s && st == r.status
    {
      assert m(Model().procs[i], io) == Machine.Step(Model().procs[i], io);
      var o := StepOwn(i, io);
      match o
      case Finished(s) => st := s;
      case Sending(rPid, target, cmd) =>
        var rc := Send(target, cmd);
        Answer(i, rPid, rc);
        st := Ok;
    }

    // The end of a round of mb_proc_run: count the instruction when the
    // process may go on.
    method Count(i: nat, st: Status) returns (again: bool)
      requires Valid() && i < SLOTS
      modifies memory
      ensures Valid() && again == (st.Ok? && old(Model()).procs[i].c.state.Ready?)
      ensures Model() == if again then SetBudget(old(Model()), i, old(Model()).procs[i].c.reductions + 1)
                         else old(Model())
    {
      again := st == Ok && procs[i].state == Ready;
      if again {
        SetReductions(i, procs[i].reductions + 1);
      }
    }

    // What a round leads to: the next round, or the end of the loop.
    static ghost predicate Leads(m: Stepper, i: nat, maxSteps: nat, hal: nat -> Io, step: Stepped, budget: nat,
        t': Trace, r: Ran)
      requires i < SLOTS && maxSteps <= REDUCTIONS + 1
    {
      && step.Stepped? && |step.s.procs| == SLOTS
      && if step.status.Ok? && step.s.procs[i].c.state.Ready?
         then
           var s1 := SetBudget(step.s, i, step.s.procs[i].c.reductions + 1);
           r == Loop(m, s1, i, maxSteps, hal, t') && BudgetLeft(s1, i, maxSteps) < budget
         else r.Ran? && r.s == step.s && r.status == step.status
    }

    static lemma RoundLeads(m: Stepper, s: Sys, i: nat, maxSteps: nat, hal: nat -> Io, t: Trace, r: Ran)
        returns (step: Stepped, t': Trace)
      requires |s.procs| == SLOTS && i < SLOTS && maxSteps <= REDUCTIONS + 1
      requires !s.procs[i].c.halted && s.procs[i].c.reductions < maxSteps
      requires r.Ran? && r == Loop(m, s, i, maxSteps, hal, t)
      ensures step == StepSlot(m, s, i, hal(s.procs[i].c.reductions))
      ensures Leads(m, i, maxSteps, hal, step, BudgetLeft(s, i, maxSteps), t', r)
    {
      step := LoopGoesOn(m, s, t, i, maxSteps, hal, r);
      t' := Then(t, step.ev);
    }

    // mb_proc_run with at most 65 steps; the scheduler passes 64.
    method RunSlot(i: nat, maxSteps: nat, hal: nat -> Io, ghost m: Stepper, ghost t: Trace, ghost r: Ran)
        returns (st: Status)
      requires Valid() && Agrees(m) && i < SLOTS && maxSteps <= REDUCTIONS + 1
      requires r.Ran? && r == Loop(m, SetBudget(Model(), i, 0), i, maxSteps, hal, t)
      modifies memory
      ensures Valid() && Model() == r.s && st == r.status
    {
      SetReductions(i, 0);
      st := RunLoop(i, maxSteps, hal, m, t, r);
    }

    method RunLoop(i: nat, maxSteps: nat, hal: nat -> Io, ghost m: Stepper, ghost t: Trace, ghost r: Ran)
        returns (st: Status)
      requires Valid() && Agrees(m) && i < SLOTS && maxSteps <= REDUCTIONS + 1
      requires r.Ran? && r == Loop(m, Model(), i, maxSteps, hal, t)
      modifies memory
      ensures Valid() && Model() == r.s && st == r.status
    {
      ghost var t' := t;
      while !procs[i].halted && procs[i].reductions < maxSteps
        invariant Valid() && r == Loop(m, Model(), i, maxSteps, hal, t')
        decreases BudgetLeft(Model(), i, maxSteps)
      {
        ghost var step;
        step, t' := RoundLeads(m, Model(), i, maxSteps, hal, t', r);
        var again;
        st, again := Round(i, hal(procs[i].reductions), m, step);
        if !again {
          return;
        }
      }
      return Ok;
    }

    // One round: an instruction, and the count when the process may go on.
    method Round(i: nat, io: Io, ghost m: Stepper, ghost step: Stepped) returns (st: Status, again: bool)
      requires Valid() && Agrees(m) && i < SLOTS && step.Stepped? && step == StepSlot(m, Model(), i, io)
      modifies memory
      ensures Valid() && st == step.status && |step.s.procs| == SLOTS
      ensures again == (st.Ok? && step.s.procs[i].c.state.Ready?)
      ensures Model() == if again then SetBudget(step.s, i, step.s.procs[i].c.reductions + 1) else step.s
    {
      st := Step(i, io, m, step);
      assert Model() == step.s;
      again := Count(i, st);
    }

    // mb_sched_wake_sleepers.
    method WakeSleepers(now: Word)
      requires Valid()
      modifies memory
      ensures Valid() && Model() == Wake(old(Model()), now)
    {
      ghost var s := Model();
      for i := 0 to SLOTS
        invariant Valid() && Model() == s.(procs := Table())
        invariant forall j :: 0 <= j < SLOTS ==> Table()[j] == if j < i then WakeOne(s.procs[j], now) else s.procs[j]
      {
        WakeSlot(i, now);
      }
      assert Table() == Wake(s, now).procs;
    }

    // The round-robin scan.
    method FindReady() returns (k: nat)
      requires Valid()
      ensures k == Pick(Model(), 0)
    {
      ghost var s := Model();
      ghost var picks := Picks(s);
      for i := 0 to SLOTS
        invariant picks[i] == Pick(s, 0)
      {
        var ready;
        ready, k := Probe(i);
        assert Scans(s, picks, i);
        if ready {
          return;
        }
      }
      return SLOTS;
    }

    // The i-th slot of the scan.
    method Probe(i: nat) returns (ready: bool, idx: nat)
      requires Valid()
      ensures idx == Visited(Model(), i) < SLOTS && ready == Model().procs[idx].c.state.Ready?
    {
      idx := (current + i) % SLOTS;
      ready := procs[idx].state == Ready;
    }

    static function Visited(s: Sys, i: nat): nat { (s.current + i) % SLOTS }

    static ghost predicate Scans(s: Sys, picks: seq<nat>, i: nat) {
      i < SLOTS && |s.procs| == SLOTS && |picks| == SLOTS + 1 ==>
        picks[i] == if s.procs[Visited(s, i)].c.state.Ready? then Visited(s, i) else picks[i + 1]
    }

    // What the scan would find from each distance on.
    static lemma Picks(s: Sys) returns (picks: seq<nat>)
      requires |s.procs| == SLOTS
      ensures |picks| == SLOTS + 1 && picks[0] == Pick(s, 0) && picks[SLOTS] == SLOTS
      ensures forall i: nat :: Scans(s, picks, i)
    {
      picks := seq(SLOTS + 1, i requires 0 <= i <= SLOTS => Pick(s, i));
    }

    // mb_sched_tick.
    method Tick(now: Word, hal: nat -> Io, ghost t: Trace) returns (st: Status)
      requires Valid() && System.Tick(Machine.Step, Model(), now, hal, t).Ran?
      modifies this`current, memory
      ensures Valid()
      ensures var r := System.Tick(Machine.Step, old(Model()), now, hal, t); Model() == r.s && st == r.status
    {
      ghost var r := System.Tick(Machine.Step, Model(), now, hal, t);
      ghost var s, k := TickParts(Machine.Step, Model(), now, hal, t, r);
      WakeSleepers(now);
      st := TickBy(hal, Machine.Step, t, s, k, r);
    }

    static lemma TickParts(m: Stepper, s0: Sys, now: Word, hal: nat -> Io, t: Trace, r: Ran) returns (s: Sys, k: nat)
      requires |s0.procs| == SLOTS && r == System.Tick(m, s0, now, hal, t)
      ensures s == Wake(s0, now) && |s.procs| == SLOTS && k == Pick(s, 0)
      ensures IsTurn(m, hal, t, s, k, r)
    {
      s := Wake(s0, now);
      k := Pick(s, 0);
      if k == SLOTS {
        assert r == Ran(s, SchedIdle, t);
      } else {
        TickIsLoop(m, s0, t, now, hal, k);
      }
    }

    // What r is for a table s in which slot k has its turn.
    static ghost predicate IsTurn(m: Stepper, hal: nat -> Io, t: Trace, s: Sys, k: nat, r: Ran)
      requires |s.procs| == SLOTS
    {
      if k >= SLOTS then r == Ran(s, SchedIdle, t)
      else r == Loop(m, System.Turn(s, k), k, REDUCTIONS, hal, Then(t, Dispatched(k)))
    }

    // The rest of a tick, once the sleepers are awake.
    method TickBy(hal: nat -> Io, ghost m: Stepper, ghost t: Trace, ghost s: Sys, ghost k: nat, ghost r: Ran)
        returns (st: Status)
      requires Valid() && Agrees(m) && Model() == s && k == Pick(s, 0) && r.Ran? && IsTurn(m, hal, t, s, k, r)
      modifies this`current, memory
      ensures Valid() && Model() == r.s && st == r.status
    {
      var found := FindReady();
      if found == SLOTS {
        return SchedIdle;
      }
      st := Dispatch(found, hal, m, t, s, r);
    }

    method Dispatch(k: nat, hal: nat -> Io, ghost m: Stepper, ghost t: Trace, ghost s: Sys, ghost r: Ran)
        returns (st: Status)
      requires Valid() && Agrees(m) && Model() == s && k < SLOTS && r.Ran? && IsTurn(m, hal, t, s, k, r)
      modifies this`current, memory
      ensures Valid() && Model() == r.s && st == r.status
    {
      current := (k + 1) % SLOTS;
      st := RunSlot(k, REDUCTIONS, hal, m, Then(t, Dispatched(k)), r);
    }

    // mb_sched_spawn.
    // The scan has found slot i, and nothing FREE before it.
    static lemma SpawnsAt(s: Sys, i: nat, program: seq<Byte>)
      requires |s.procs| == SLOTS && i <= SLOTS && FirstFree(s, 0) == FirstFree(s, i)
      requires i < SLOTS ==> s.procs[i].c.state.Free?
      ensures SpawnProcess(s, program) ==
                if i == SLOTS then (s, 0)
                else
                  (s.(procs := s.procs[i := Spawned(i + 1, program, |s.procs[i].heap.from|)],
                      count := s.count + 1), i + 1)
    {
    }

    // The process gets slot i.
    method Occupy(i: nat, program: seq<Byte>)
      requires Valid() && i < SLOTS
      modifies this`count, memory
      ensures Valid()
      ensures var s := old(Model());
              Model() == s.(procs := s.procs[i := Spawned(i + 1, program, |s.procs[i].heap.from|)],
                            count := s.count + 1)
    {
      InitSlot(i, i + 1, program);
      count := count + 1;
    }

    method SpawnProgram(program: seq<Byte>) returns (pid: nat)
      requires Valid()
      modifies this`count, memory
      ensures Valid() && (Model(), pid) == SpawnProcess(old(Model()), program)
    {
      ghost var s := Model();
      for i := 0 to SLOTS
        invariant Valid() && Model() == s
        invariant FirstFree(s, 0) == FirstFree(s, i)
      {
        if procs[i].state == Free {
          SpawnsAt(s, i, program);
          Occupy(i, program);
          return i + 1;
        }
      }
      SpawnsAt(s, SLOTS, program);
      return 0;
    }

    // Processes with nothing in common.
    static ghost predicate Separate(table: seq<Process>, used: set<object>)
      reads table
    {
      && (forall i: nat | i < |table| :: table[i].Repr() <= used)
      && (forall i: nat, j: nat | i < |table| && j < |table| && i != j :: table[i].Repr() !! table[j].Repr())
    }

    // Eight blank processes.
    static method Blanks(capacity: nat) returns (table: seq<Process>, ghost used: set<object>)
      requires capacity <= MAX_SPACE
      ensures |table| == SLOTS && Separate(table, used) && fresh(used)
      ensures forall i: nat | i < SLOTS :: table[i].Valid() && table[i].Model() == Blank(capacity)
    {
      table, used := [], {};
      for k := 0 to SLOTS
        invariant |table| == k && Separate(table, used) && fresh(used)
        invariant forall i: nat | i < k :: table[i].Valid() && table[i].Model() == Blank(capacity)
      {
        var p := new Process(capacity);
        table := table + [p];
        used := used + p.Repr();
      }
    }

    // mb_sched_init: eight empty slots.
    constructor (capacity: nat)
      requires capacity <= MAX_SPACE
      ensures Valid() && Model() == Initial(capacity) && fresh(memory)
    {
      var table, used := Blanks(capacity);
      procs, memory := table, used;
      current, count := 0, 0;
      new;
      forall i: nat
        ensures OwnsAt(i)
      {
        assert i < |procs| ==> procs[i].Repr() <= memory;
      }
      assert Table() == Initial(capacity).procs;
    }
  }
}
