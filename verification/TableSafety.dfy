// Term safety for the whole table: no history of ticks, sends and spawns, with
// arbitrary bytecode in every slot, makes a process touch memory it does not
// own or forge a pointer.
module TableSafety {
  import opened Term
  import opened Graph
  import opened Collector
  import opened Preservation
  import opened Commands
  import opened Bytecode
  import opened Machine
  import opened TreeMachine
  import opened Refinement
  import opened Runs
  import opened System
  import Retry
  import Scheduling

  // ---- properties of processes that every history keeps ----

  type Property = Proc -> bool

  ghost predicate SameData(p: Proc, p': Proc) {
    p'.regs == p.regs && p'.heap == p.heap && p'.c.program == p.c.program
  }

  // A SEND answered with st.
  function Told(p: Proc, rPid: nat, st: Status): Proc {
    p.(regs := WriteAll(p.regs, [Write(rPid, MakeSmallint(st.Code()))]))
  }

  // inv is about registers, heap and program, and allows any status in any
  // register.
  ghost predicate Independent(inv: Property) {
    && (forall p, p' :: inv(p) && SameData(p, p') ==> inv(p'))
    && (forall p, rPid, st :: inv(p) ==> inv(Told(p, rPid, st)))
  }

  ghost predicate KeptBy(inv: Property, r: Outcome) {
    match r
    case Undefined => false
    case Did(p, _) => inv(p)
    case Sends(p, _, _, _) => inv(p)
  }

  // Instructions that ok allows keep inv.
  ghost predicate Keeps(m: Stepper, inv: Property, ok: Property) {
    forall p, io :: inv(p) && ok(p) ==> KeptBy(inv, m(p, io))
  }

  ghost predicate Everywhere(inv: Property, s: Sys) {
    |s.procs| == SLOTS && forall j: nat :: j < SLOTS ==> inv(s.procs[j])
  }

  ghost predicate CanStart(inv: Property, program: seq<Byte>) {
    forall pid: nat, capacity: nat :: capacity <= MAX_SPACE ==> inv(Spawned(pid, program, capacity))
  }

  // ---- guarded histories ----

  // ok holds of the process before each of its instructions.
  ghost predicate GuardedLoop(m: Stepper, ok: Property, s: Sys, i: nat, maxSteps: nat, hal: nat -> Io)
    requires |s.procs| == SLOTS && i < SLOTS && maxSteps <= REDUCTIONS + 1
    decreases BudgetLeft(s, i, maxSteps)
  {
    var n := s.procs[i].c.reductions;
    s.procs[i].c.halted || n >= maxSteps ||
    (&& ok(s.procs[i])
     && match StepSlot(m, s, i, hal(n))
        case Crash => true
        case Stepped(s1, st, _) =>
          st.Ok? && s1.procs[i].c.state.Ready? ==>
            GuardedLoop(m, ok, SetBudget(s1, i, s1.procs[i].c.reductions + 1), i, maxSteps, hal))
  }

  ghost predicate GuardedTick(m: Stepper, ok: Property, s: Sys, now: Word, hal: nat -> Io)
    requires |s.procs| == SLOTS
  {
    var s1 := Wake(s, now);
    var k := Pick(s1, 0);
    k < SLOTS ==> GuardedLoop(m, ok, Turn(s1, k), k, REDUCTIONS, hal)
  }

  ghost predicate GuardedHistory(m: Stepper, ok: Property, s: Sys, acts: seq<Action>, t: Trace)
    requires |s.procs| == SLOTS
    decreases |acts|
  {
    acts == [] ||
    (&& (acts[0].DoTick? ==> GuardedTick(m, ok, s, acts[0].now, acts[0].hal))
     && match Act(m, s, acts[0], t)
        case Broken => true
        case Ran(s1, _, t1) => GuardedHistory(m, ok, s1, acts[1..], t1))
  }

  // Where inv implies ok, no guard is needed.
  ghost predicate Unguarded(inv: Property, ok: Property) { forall p :: inv(p) ==> ok(p) }

  // ---- preservation ----

  lemma PostHolds(inv: Property, s: Sys, pid: nat, cmd: Command)
    requires Independent(inv) && Everywhere(inv, s)
    ensures Everywhere(inv, Post(s, pid, cmd).0)
  {
    var s' := Post(s, pid, cmd).0;
    forall j: nat | j < SLOTS
      ensures inv(s'.procs[j])
    {
      assert SameData(s.procs[j], s'.procs[j]);
    }
  }

  lemma StepHolds(m: Stepper, inv: Property, ok: Property, s: Sys, i: nat, io: Io)
    requires Independent(inv) && Keeps(m, inv, ok) && Everywhere(inv, s) && i < SLOTS && ok(s.procs[i])
    ensures var r := StepSlot(m, s, i, io); r.Stepped? && Everywhere(inv, r.s)
  {
    var o := m(s.procs[i], io);
    assert KeptBy(inv, o);
    if o.Sends? {
      var s0 := s.(procs := s.procs[i := o.p]);
      PostHolds(inv, s0, o.target, o.cmd);
      var (s1, st) := Post(s0, o.target, o.cmd);
      assert Reply(s1, i, o.rPid, st) == s1.(procs := s1.procs[i := Told(s1.procs[i], o.rPid, st)]);
    }
  }

  lemma BudgetHolds(inv: Property, s: Sys, i: nat, n: nat)
    requires Independent(inv) && Everywhere(inv, s) && i < SLOTS
    ensures Everywhere(inv, SetBudget(s, i, n))
  {
    assert SameData(s.procs[i], SetBudget(s, i, n).procs[i]);
  }

  // The guard of the loop guards the rest of it.
  lemma GuardGoesOn(m: Stepper, ok: Property, s: Sys, i: nat, maxSteps: nat, hal: nat -> Io, next: Sys)
    requires maxSteps <= REDUCTIONS + 1 && GoesOn(s, i, maxSteps) && GuardedLoop(m, ok, s, i, maxSteps, hal)
    requires Round(m, i, hal, s, next)
    ensures GuardedLoop(m, ok, next, i, maxSteps, hal)
  {
  }

  // One round of the loop: it goes on from next, or ended there.
  lemma RoundHolds(m: Stepper, inv: Property, ok: Property, s: Sys, i: nat, maxSteps: nat, hal: nat -> Io, t: Trace,
      r: Ran)
      returns (again: bool, next: Sys, t': Trace)
    requires Independent(inv) && Keeps(m, inv, ok) && Everywhere(inv, s) && GoesOn(s, i, maxSteps)
    requires maxSteps <= REDUCTIONS + 1 && ok(s.procs[i]) && r == Loop(m, s, i, maxSteps, hal, t)
    ensures Everywhere(inv, next)
    ensures again ==> r == Loop(m, next, i, maxSteps, hal, t')
    ensures again ==> BudgetLeft(next, i, maxSteps) < BudgetLeft(s, i, maxSteps)
    ensures again ==> Round(m, i, hal, s, next)
    ensures !again ==> r.Ran? && r.s == next
  {
    StepHolds(m, inv, ok, s, i, hal(s.procs[i].c.reductions));
    var step;
    again, step, next, t' := Scheduling.LoopTurns(m, s, t, i, maxSteps, hal, r);
    if again {
      BudgetHolds(inv, step.s, i, step.s.procs[i].c.reductions + 1);
    }
  }

  lemma {:induction false} LoopHolds(
      m: Stepper, inv: Property, ok: Property, s: Sys, i: nat, maxSteps: nat, hal: nat -> Io, t: Trace, r: Ran)
    requires Independent(inv) && Keeps(m, inv, ok) && Everywhere(inv, s) && i < SLOTS && maxSteps <= REDUCTIONS + 1
    requires Unguarded(inv, ok) || GuardedLoop(m, ok, s, i, maxSteps, hal)
    requires r == Loop(m, s, i, maxSteps, hal, t)
    ensures r.Ran? && Everywhere(inv, r.s)
    decreases BudgetLeft(s, i, maxSteps)
  {
    if GoesOn(s, i, maxSteps) {
      assert inv(s.procs[i]);
      var again, next, t' := RoundHolds(m, inv, ok, s, i, maxSteps, hal, t, r);
      if again {
        if !Unguarded(inv, ok) {
          GuardGoesOn(m, ok, s, i, maxSteps, hal, next);
        }
        LoopHolds(m, inv, ok, next, i, maxSteps, hal, t', r);
      }
    }
  }

  lemma WakeHolds(inv: Property, s: Sys, now: Word)
    requires Independent(inv) && Everywhere(inv, s)
    ensures Everywhere(inv, Wake(s, now))
  {
    forall j: nat | j < SLOTS
      ensures inv(Wake(s, now).procs[j])
    {
      assert SameData(s.procs[j], Wake(s, now).procs[j]);
    }
  }

  lemma TickHolds(m: Stepper, inv: Property, ok: Property, s: Sys, now: Word, hal: nat -> Io, t: Trace)
    requires Independent(inv) && Keeps(m, inv, ok) && Everywhere(inv, s)
    requires Unguarded(inv, ok) || GuardedTick(m, ok, s, now, hal)
    ensures var r := Tick(m, s, now, hal, t); r.Ran? && Everywhere(inv, r.s)
  {
    var s1 := Wake(s, now);
    WakeHolds(inv, s, now);
    var k := Pick(s1, 0);
    if k < SLOTS {
      BudgetHolds(inv, s1.(current := (k + 1) % SLOTS), k, 0);
      Scheduling.TickIsLoop(m, s, t, now, hal, k);
      LoopHolds(m, inv, ok, Turn(s1, k), k, REDUCTIONS, hal, Then(t, Dispatched(k)), Tick(m, s, now, hal, t));
    }
  }

  lemma ActHolds(m: Stepper, inv: Property, ok: Property, s: Sys, a: Action, t: Trace)
    requires Independent(inv) && Keeps(m, inv, ok) && Everywhere(inv, s)
    requires Unguarded(inv, ok) || (a.DoTick? ==> GuardedTick(m, ok, s, a.now, a.hal))
    requires a.DoSpawn? ==> CanStart(inv, a.program)
    ensures var r := Act(m, s, a, t); r.Ran? && Everywhere(inv, r.s)
  {
    match a
    case DoTick(now, hal) => TickHolds(m, inv, ok, s, now, hal, t);
    case DoSend(pid, cmd) => PostHolds(inv, s, pid, cmd);
    case DoSpawn(program) =>
  }

  // A property that instructions keep holds of every process after every
  // history, and no history breaks.
  lemma {:induction false} HistoryHolds(m: Stepper, inv: Property, ok: Property, s: Sys, acts: seq<Action>, t: Trace)
    requires Independent(inv) && Keeps(m, inv, ok) && Everywhere(inv, s)
    requires Unguarded(inv, ok) || GuardedHistory(m, ok, s, acts, t)
    requires forall a :: a in acts && a.DoSpawn? ==> CanStart(inv, a.program)
    ensures var r := Perform(m, s, acts, t); r.Ran? && Everywhere(inv, r.s)
    decreases |acts|
  {
    if acts != [] {
      assert acts[0] in acts;
      ActHolds(m, inv, ok, s, acts[0], t);
      var r := Act(m, s, acts[0], t);
      HistoryHolds(m, inv, ok, r.s, acts[1..], r.trace);
    }
  }

  lemma InitialHolds(inv: Property, capacity: nat)
    requires capacity <= MAX_SPACE && Independent(inv) && CanStart(inv, [])
    ensures Everywhere(inv, Initial(capacity))
  {
    assert SameData(Spawned(0, [], capacity), Blank(capacity));
  }

  // ---- term safety ----

  // Every register and every field of the process is 0, an immediate, or the
  // offset of an allocated object of the kind its tag says.
  ghost predicate Safe(p: Proc) { exists objs, trees :: Denoting(p, objs, trees) }

  ghost function SafeProcs(): Property { p => Safe(p) }

  ghost function SafeCollections(): Property { p => CollectSafe(p, Next(p)) }

  lemma SameDataDenotes(p: Proc, p': Proc, objs: Objects, trees: seq<Tree>)
    requires Denoting(p, objs, trees) && SameData(p, p')
    ensures Denoting(p', objs, trees)
  {
    assert SnapshotOf(p', objs) == SnapshotOf(p, objs);
  }

  lemma ToldDenotes(p: Proc, rPid: nat, st: Status, objs: Objects, trees: seq<Tree>)
    requires Denoting(p, objs, trees)
    ensures Denoting(Told(p, rPid, st), objs, WriteLeaves(trees, [Write(rPid, MakeSmallint(st.Code()))]))
  {
    Tagged(st.Code());
    WriteRefines(p, objs, trees, [Write(rPid, MakeSmallint(st.Code()))]);
  }

  lemma SafetyIsKept()
    ensures Independent(SafeProcs()) && Keeps(Machine.Step, SafeProcs(), SafeCollections())
  {
    forall p, p' | Safe(p) && SameData(p, p')
      ensures Safe(p')
    {
      var objs, trees :| Denoting(p, objs, trees);
      SameDataDenotes(p, p', objs, trees);
    }
    forall p, rPid, st | Safe(p)
      ensures Safe(Told(p, rPid, st))
    {
      var objs, trees :| Denoting(p, objs, trees);
      ToldDenotes(p, rPid, st, objs, trees);
    }
    forall p, io | Safe(p) && CollectSafe(p, Next(p))
      ensures KeptBy(SafeProcs(), Machine.Step(p, io))
    {
      var objs, trees :| Denoting(p, objs, trees);
      var objs' := StepRefines(p, objs, trees, io);
    }
  }

  lemma SpawnedSafe(program: seq<Byte>)
    ensures CanStart(SafeProcs(), program)
  {
    forall pid: nat, capacity: nat | capacity <= MAX_SPACE
      ensures Safe(Spawned(pid, program, capacity))
    {
      SpawnedIsSafe(pid, program, capacity);
    }
  }

  // Arbitrary bytecode in every slot, from power-up on: as long as every
  // collection is one that CollectSafe allows, no action breaks and every
  // process stays well formed.
  lemma TableIsTermSafe(capacity: nat, acts: seq<Action>)
    requires capacity <= MAX_SPACE
    requires GuardedHistory(Machine.Step, SafeCollections(), Initial(capacity), acts, Start)
    ensures var r := Perform(Machine.Step, Initial(capacity), acts, Start);
            r.Ran? && forall j: nat :: j < SLOTS ==> Safe(r.s.procs[j])
  {
    SafetyIsKept();
    SpawnedSafe([]);
    InitialHolds(SafeProcs(), capacity);
    forall a | a in acts && a.DoSpawn?
      ensures CanStart(SafeProcs(), a.program)
    {
      SpawnedSafe(a.program);
    }
    HistoryHolds(Machine.Step, SafeProcs(), SafeCollections(), Initial(capacity), acts, Start);
  }

  // ---- and not without the guard ----

  // Slot 0 has executed the first k instructions of Retry.StaleProgram.
  ghost predicate Staled(s: Sys, k: nat) {
    |s.procs| == SLOTS && Retry.After(s.procs[0], k) && s.procs[0].c.reductions == k
  }

  // m executes the k-th instruction of the program, and fails after the last.
  ghost predicate StalesAt(m: Stepper, s: Sys, k: nat, io: Io) {
    Staled(s, k) && k <= 3 ==>
      var r := StepSlot(m, s, 0, io);
      && r.Stepped?
      && if k < 3 then r.status.Ok? && r.s.procs[0].c.state.Ready?
           && Staled(SetBudget(r.s, 0, r.s.procs[0].c.reductions + 1), k + 1)
         else !r.status.Ok? && r.s.procs[0].regs == s.procs[0].regs && r.s.procs[0].heap == s.procs[0].heap
  }

  ghost predicate Stales(m: Stepper) { forall s, k: nat, io :: StalesAt(m, s, k, io) }

  lemma MachineStales()
    ensures Stales(Machine.Step)
  {
    forall s, k: nat, io
      ensures StalesAt(Machine.Step, s, k, io)
    {
      if Staled(s, k) && k <= 3 {
        Retry.StaleDecodes(k);
        if k < 3 {
          Retry.StaleStep(s.procs[0], k, io);
        }
      }
    }
  }

  lemma StaleRound(m: Stepper, s: Sys, k: nat, hal: nat -> Io, t: Trace, r: Ran) returns (next: Sys, t': Trace)
    requires Stales(m) && Staled(s, k) && k <= 3 && r == Loop(m, s, 0, REDUCTIONS, hal, t)
    ensures |next.procs| == SLOTS
    ensures if k < 3 then Staled(next, k + 1) && r == Loop(m, next, 0, REDUCTIONS, hal, t')
            else r.Ran? && r.s == next && next.procs[0].regs == s.procs[0].regs && next.procs[0].heap == s.procs[0].heap
  {
    assert StalesAt(m, s, k, hal(k));
    var step := StepSlot(m, s, 0, hal(k));
    Scheduling.LoopStep(m, s, t, 0, REDUCTIONS, hal, step.s, step.status, step.ev);
    next, t' := step.s, Then(t, step.ev);
    if k < 3 {
      next := SetBudget(step.s, 0, step.s.procs[0].c.reductions + 1);
    }
  }

  lemma {:induction false} StaleLoop(m: Stepper, s: Sys, k: nat, hal: nat -> Io, t: Trace, r: Ran)
    requires Stales(m) && Staled(s, k) && k <= 3 && r == Loop(m, s, 0, REDUCTIONS, hal, t)
    ensures r.Ran? && |r.s.procs| == SLOTS
    ensures r.s.procs[0].regs == Retry.RegsAfter(3) && r.s.procs[0].heap == Retry.HeapAfter(3)
    decreases 3 - k
  {
    var next, t' := StaleRound(m, s, k, hal, t, r);
    if k < 3 {
      StaleLoop(m, next, k + 1, hal, t', r);
    }
  }

  // The table after spawning the program into an empty one.
  lemma StaleSpawned(now: Word) returns (s: Sys)
    ensures SpawnProcess(Initial(4), Retry.StaleProgram()) == (s, 1) && |s.procs| == SLOTS
    ensures Pick(Wake(s, now), 0) == 0
    ensures Staled(Turn(Wake(s, now), 0), 0)
  {
    s := SpawnProcess(Initial(4), Retry.StaleProgram()).0;
    assert s.procs[0] == Spawned(1, Retry.StaleProgram(), 4) && s.current == 0;
    assert Wake(s, now).procs[0] == s.procs[0];
  }

  // A history of one tick, which dispatches slot k.
  lemma OneTick(m: Stepper, s: Sys, t: Trace, acts: seq<Action>, k: nat, r: Ran)
    requires |s.procs| == SLOTS && |acts| == 1 && acts[0].DoTick? && k == Pick(Wake(s, acts[0].now), 0) < SLOTS
    requires r.Ran? && r == Loop(m, Turn(Wake(s, acts[0].now), k), k, REDUCTIONS, acts[0].hal, Then(t, Dispatched(k)))
    ensures var h := Perform(m, s, acts, t); h.Ran? && h.s == r.s
  {
    Scheduling.TickIsLoop(m, s, t, acts[0].now, acts[0].hal, k);
    Scheduling.PerformOnly(m, s, acts, t, r);
  }

  // A spawn into slot i, and a tick that dispatches k.
  lemma SpawnThenTick(m: Stepper, s: Sys, s1: Sys, acts: seq<Action>, i: nat, k: nat, r: Ran)
    requires |s.procs| == SLOTS && |s1.procs| == SLOTS && |acts| == 2 && acts[0].DoSpawn? && acts[1].DoTick?
    requires SpawnProcess(s, acts[0].program) == (s1, i + 1) && k == Pick(Wake(s1, acts[1].now), 0) < SLOTS
    requires r == Loop(m, Turn(Wake(s1, acts[1].now), k), k, REDUCTIONS, acts[1].hal,
                       Then(Then(Start, Started(i)), Dispatched(k)))
    ensures r.Ran? ==> var h := Perform(m, s, acts, Start); h.Ran? && h.s == r.s
  {
    if r.Ran? {
      assert |acts[1..]| == 1 && acts[1..][0] == acts[1];
      var t := Then(Start, Started(i));
      OneTick(m, s1, t, acts[1..], k, r);
      Scheduling.PerformFirst(m, s, acts, Start, s1, Ok, t, Perform(m, s1, acts[1..], t));
    }
  }

  // Spawning a program of three instructions and one tick leave a process
  // with a forged pointer: a tuple that is its own element as a list cell.
  lemma TermSafetyNeedsTheGuard(now: Word, hal: nat -> Io)
    ensures var r := Perform(Machine.Step, Initial(4), [DoSpawn(Retry.StaleProgram()), DoTick(now, hal)], Start);
            r.Ran? && |r.s.procs| == SLOTS && !Safe(r.s.procs[0])
  {
    ghost var m: Stepper := Machine.Step;
    MachineStales();
    var s := StaleSpawned(now);
    StaleHistory(m, Initial(4), s, [DoSpawn(Retry.StaleProgram()), DoTick(now, hal)]);
  }

  lemma StaleHistory(m: Stepper, s0: Sys, s: Sys, acts: seq<Action>)
    requires Stales(m) && |s0.procs| == SLOTS && |s.procs| == SLOTS
    requires |acts| == 2 && acts[0].DoSpawn? && acts[1].DoTick? && SpawnProcess(s0, acts[0].program) == (s, 1)
    requires Pick(Wake(s, acts[1].now), 0) == 0 && Staled(Turn(Wake(s, acts[1].now), 0), 0)
    ensures var r := Perform(m, s0, acts, Start); r.Ran? && |r.s.procs| == SLOTS && !Safe(r.s.procs[0])
  {
    var tick := acts[1];
    var turn := Turn(Wake(s, tick.now), 0);
    var t := Then(Then(Start, Started(0)), Dispatched(0));
    SpawnThenTick(m, s0, s, acts, 0, 0, Loop(m, turn, 0, REDUCTIONS, tick.hal, t));
    var r := StaleRuns(m, turn, tick.hal, t);
  }

  lemma StaleRuns(m: Stepper, s: Sys, hal: nat -> Io, t: Trace) returns (r: Ran)
    requires Stales(m) && Staled(s, 0)
    ensures r == Loop(m, s, 0, REDUCTIONS, hal, t) && r.Ran? && |r.s.procs| == SLOTS && !Safe(r.s.procs[0])
  {
    r := Loop(m, s, 0, REDUCTIONS, hal, t);
    StaleLoop(m, s, 0, hal, t, r);
    StaleIsUnsafe(r.s.procs[0]);
  }

  lemma StaleIsUnsafe(p: Proc)
    requires p.regs == Retry.RegsAfter(3) && p.heap == Retry.HeapAfter(3)
    ensures !Safe(p)
  {
    forall objs, trees
      ensures !Denoting(p, objs, trees)
    {
      Retry.StaleTupleIsUnsafe(p, objs);
    }
  }

  // ---- programs without MAKE_TUPLE need no guard ----

  // No address of the program decodes to MAKE_TUPLE.
  ghost predicate ListsOnly(program: seq<Byte>) { forall pc: nat :: !DecodesToTuple(program, pc) }

  predicate DecodesToTuple(program: seq<Byte>, pc: nat) {
    Decode(program, pc).Decoded? && Decode(program, pc).instr.MakeTuple?
  }

  predicate NoTuples(t: Tree) {
    match t
    case Leaf(_) => true
    case ConsT(h, tl) => NoTuples(h) && NoTuples(tl)
    case TupleT(_) => false
  }

  ghost predicate AllLists(trees: seq<Tree>) { forall r :: 0 <= r < |trees| ==> NoTuples(trees[r]) }

  ghost predicate HoldsLists(p: Proc) {
    ListsOnly(p.c.program) && exists objs, trees :: Denoting(p, objs, trees) && AllLists(trees)
  }

  ghost function ListProcs(): Property { p => HoldsLists(p) }

  ghost function Anything(): Property { p => true }

  // A cell that stands for a list.
  ghost predicate IsListCell(words: seq<Word>, objs: Objects, w: Word, t: Tree) {
    IsCons(w) && NoTuples(t) && Denotes(words, objs, w, t)
  }

  ghost predicate IsListAt(words: seq<Word>, objs: Objects, o: nat) {
    exists w, t :: IsListCell(words, objs, w, t) && Offset(w) == o
  }

  lemma ListTarget(words: seq<Word>, objs: Objects, objs': Objects, w: Word, t: Tree)
    requires NoTuples(t) && Denotes(words, objs, w, t) && ValidTerm(objs', w)
    ensures Targets(w, set o | o in objs' && objs'[o].Pair? && IsListAt(words, objs, o))
  {
    if IsPointer(w) {
      assert IsListCell(words, objs, w, t);
    }
  }

  // Registers that hold lists keep only pairs alive, whatever description of
  // the heap one takes.
  lemma ListsKeepPairsAlive(p: Proc, objs: Objects, trees: seq<Tree>, objs': Objects)
    requires Denoting(p, objs, trees) && AllLists(trees) && SafeWith(p, objs')
    ensures forall o :: o in SnapshotOf(p, objs').Live() ==> objs'[o].Pair?
  {
    var a := SnapshotOf(p, objs');
    var s := set o | o in objs' && objs'[o].Pair? && IsListAt(a.words, objs, o);
    forall r | 0 <= r < REG_COUNT
      ensures Targets(a.roots[r], s)
    {
      ListTarget(a.words, objs, objs', a.roots[r], trees[r]);
    }
    forall o: nat, k: nat | o in s && IsField(objs', o, k)
      ensures k < |a.words| && Targets(a.words[k], s)
    {
      var w, t :| IsListCell(a.words, objs, w, t) && Offset(w) == o;
      ListTarget(a.words, objs, objs', a.words[k], if k == o then t.head else t.tail);
    }
    LiveIsLeastClosed(a.words, a.hp, objs', a.roots);
    assert Closed(a.words, objs', a.roots, s);
  }

  lemma ListsAreCollectSafe(p: Proc)
    requires HoldsLists(p)
    ensures CollectSafe(p, Next(p))
  {
    var objs, trees :| Denoting(p, objs, trees) && AllLists(trees);
    assert !DecodesToTuple(p.c.program, p.c.pc);
    forall objs' | SafeWith(p, objs')
      ensures Roomy(|p.heap.from|, objs', SnapshotOf(p, objs').Live())
    {
      ListsKeepPairsAlive(p, objs, trees, objs');
      NoEmptyTuplesIsRoomy(p.heap.from, p.heap.hp, objs', SnapshotOf(p, objs').Live());
    }
  }

  lemma {:induction false} WriteLeavesLists(trees: seq<Tree>, ws: seq<Write>)
    requires AllLists(trees)
    ensures AllLists(WriteLeaves(trees, ws))
    decreases |ws|
  {
    if ws != [] {
      WriteLeavesLists(if ws[0].reg < |trees| then trees[ws[0].reg := Leaf(ws[0].value)] else trees, ws[1..]);
    }
  }

  // Without MAKE_TUPLE the machine on trees makes no tuple.
  lemma TreeStepLists(t: TreeProc, io: Io, h: Hint)
    requires AllLists(t.regs) && !DecodesToTuple(t.c.program, t.c.pc)
    ensures AllLists(TreeStep(t, io, h).t.regs)
  {
    if !t.c.halted && Decode(t.c.program, t.c.pc).Decoded? {
      var d := Decode(t.c.program, t.c.pc);
      var t1 := t.(c := t.c.(pc := d.next));
      WriteLeavesLists(t.regs, Simple(t1.c, View(t.regs, h), t.c.pc, d.instr, io).writes);
    }
  }

  lemma ListStepKeeps(p: Proc, io: Io)
    requires HoldsLists(p)
    ensures KeptBy(ListProcs(), Machine.Step(p, io))
  {
    var objs, trees :| Denoting(p, objs, trees) && AllLists(trees);
    ListsAreCollectSafe(p);
    var h := HintFor(p, objs, Next(p));
    var objs' := StepRefines(p, objs, trees, io);
    assert !DecodesToTuple(p.c.program, p.c.pc);
    TreeStepLists(TreeProc(p.c, trees), io, h);
  }

  lemma ListsAreKept()
    ensures Independent(ListProcs()) && Keeps(Machine.Step, ListProcs(), Anything())
  {
    forall p, p' | HoldsLists(p) && SameData(p, p')
      ensures HoldsLists(p')
    {
      var objs, trees :| Denoting(p, objs, trees) && AllLists(trees);
      SameDataDenotes(p, p', objs, trees);
    }
    forall p, rPid, st | HoldsLists(p)
      ensures HoldsLists(Told(p, rPid, st))
    {
      var objs, trees :| Denoting(p, objs, trees) && AllLists(trees);
      ToldDenotes(p, rPid, st, objs, trees);
      WriteLeavesLists(trees, [Write(rPid, MakeSmallint(st.Code()))]);
    }
    forall p, io | HoldsLists(p)
      ensures KeptBy(ListProcs(), Machine.Step(p, io))
    {
      ListStepKeeps(p, io);
    }
  }

  lemma SpawnedHoldsLists(program: seq<Byte>)
    requires ListsOnly(program)
    ensures CanStart(ListProcs(), program)
  {
    forall pid: nat, capacity: nat | capacity <= MAX_SPACE
      ensures HoldsLists(Spawned(pid, program, capacity))
    {
      SpawnedIsSafe(pid, program, capacity);
      assert AllLists(StartTrees());
    }
  }

  // Programs that never build tuples are safe without any condition: every
  // collection in every history is one that preserves the data.
  lemma ListProgramsAreSafe(capacity: nat, acts: seq<Action>)
    requires capacity <= MAX_SPACE
    requires forall a :: a in acts && a.DoSpawn? ==> ListsOnly(a.program)
    ensures var r := Perform(Machine.Step, Initial(capacity), acts, Start);
            r.Ran? && forall j: nat :: j < SLOTS ==> Safe(r.s.procs[j]) && CollectSafe(r.s.procs[j], Next(r.s.procs[j]))
  {
    ListsAreKept();
    assert ListsOnly([]);
    SpawnedHoldsLists([]);
    InitialHolds(ListProcs(), capacity);
    forall a | a in acts && a.DoSpawn?
      ensures CanStart(ListProcs(), a.program)
    {
      SpawnedHoldsLists(a.program);
    }
    HistoryHolds(Machine.Step, ListProcs(), Anything(), Initial(capacity), acts, Start);
    var r := Perform(Machine.Step, Initial(capacity), acts, Start);
    forall j: nat | j < SLOTS
      ensures Safe(r.s.procs[j]) && CollectSafe(r.s.procs[j], Next(r.s.procs[j]))
    {
      assert HoldsLists(r.s.procs[j]);
      ListsAreCollectSafe(r.s.procs[j]);
    }
  }
}
