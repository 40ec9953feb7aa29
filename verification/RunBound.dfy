// How long one call of mb_proc_run lasts.  YIELD does not end the loop: it
// sets the instruction count to 64, which ends the loop only when max_steps
// is at most 65.  The scheduler passes 64.
module RunBound {
  import opened Bytecode
  import opened Machine
  import opened System

  const YIELD_OP: Byte := 0x23

  // ss are the states before the instructions that a call executes.
  ghost predicate IsRun(m: Stepper, i: nat, maxSteps: nat, hal: nat -> Io, ss: seq<Sys>) {
    && (forall j :: 0 <= j < |ss| ==> GoesOn(ss[j], i, maxSteps))
    && (forall j, k :: 0 <= j && k == j + 1 < |ss| ==> Round(m, i, hal, ss[j], ss[k]))
  }

  // With a bound of at most 65 every instruction, YIELD too, uses up budget.
  lemma {:induction false} BudgetLimits(m: Stepper, i: nat, maxSteps: nat, hal: nat -> Io, ss: seq<Sys>)
    requires maxSteps <= REDUCTIONS + 1 && IsRun(m, i, maxSteps, hal, ss) && ss != []
    ensures |ss| <= BudgetLeft(ss[0], i, maxSteps)
    decreases |ss|
  {
    assert GoesOn(ss[0], i, maxSteps);
    if |ss| > 1 {
      BudgetLimits(m, i, maxSteps, hal, ss[1..]);
      assert Round(m, i, hal, ss[0], ss[1]);
    }
  }

  lemma Prepend(m: Stepper, i: nat, maxSteps: nat, hal: nat -> Io, s: Sys, ss: seq<Sys>)
    requires GoesOn(s, i, maxSteps) && IsRun(m, i, maxSteps, hal, ss)
    requires ss != [] ==> Round(m, i, hal, s, ss[0])
    ensures IsRun(m, i, maxSteps, hal, [s] + ss)
  {
  }

  // ---- programs that overrun a larger bound ----

  // Process 0 is READY at pc of the program, with the count at n.
  ghost predicate RunningAt(s: Sys, program: seq<Byte>, pc: nat, n: nat) {
    && |s.procs| == SLOTS
    && var c := s.procs[0].c;
       c.program == program && c.pc == pc && c.state.Ready? && !c.halted && c.reductions == n
  }

  lemma YieldRound(s: Sys, program: seq<Byte>, pc: nat, n: nat, hal: nat -> Io) returns (s': Sys)
    requires RunningAt(s, program, pc, n) && pc < |program| && program[pc] == YIELD_OP
    ensures Round(Machine.Step, 0, hal, s, s') && RunningAt(s', program, pc + 1, REDUCTIONS + 1)
  {
    assert Decode(program, pc) == Decoded(Yield, pc + 1);
    s' := SetBudget(StepSlot(Machine.Step, s, 0, hal(n)).s, 0, REDUCTIONS + 1);
  }

  function Yields(n: nat): (p: seq<Byte>)
    ensures |p| == n && forall i :: 0 <= i < n ==> p[i] == YIELD_OP
  {
    seq(n, _ => YIELD_OP)
  }

  // A row of YIELDs runs to its end in one call.
  lemma {:induction false} YieldsOverrun(s: Sys, len: nat, pc: nat, n: nat, maxSteps: nat, hal: nat -> Io)
      returns (ss: seq<Sys>)
    requires RunningAt(s, Yields(len), pc, n) && pc < len && n <= REDUCTIONS + 1 < maxSteps
    ensures IsRun(Machine.Step, 0, maxSteps, hal, ss) && |ss| == len - pc && ss[0] == s
    decreases len - pc
  {
    ss := [s];
    if pc + 1 < len {
      var s' := YieldRound(s, Yields(len), pc, n, hal);
      var rest := YieldsOverrun(s', len, pc + 1, REDUCTIONS + 1, maxSteps, hal);
      Prepend(Machine.Step, 0, maxSteps, hal, s, rest);
      ss := [s] + rest;
    }
  }

  ghost predicate WithinBound(i: nat, maxSteps: nat, hal: nat -> Io, ss: seq<Sys>) {
    IsRun(Machine.Step, i, maxSteps, hal, ss) && ss != [] && ss[0].procs[i].c.reductions == 0 ==> |ss| <= maxSteps
  }

  function YieldingTable(program: seq<Byte>): (s: Sys)
    ensures |s.procs| == SLOTS
  {
    Sys(seq(SLOTS, _ => Spawned(1, program, 0)), 0, SLOTS)
  }

  // max_steps bounds the instructions of a call exactly when it is at most 65.
  lemma StepLimitHolds(maxSteps: nat)
    ensures maxSteps <= REDUCTIONS + 1 <==>
              forall i: nat, hal: nat -> Io, ss: seq<Sys> :: WithinBound(i, maxSteps, hal, ss)
  {
    if maxSteps <= REDUCTIONS + 1 {
      forall i: nat, hal: nat -> Io, ss: seq<Sys>
        ensures WithinBound(i, maxSteps, hal, ss)
      {
        if IsRun(Machine.Step, i, maxSteps, hal, ss) && ss != [] {
          BudgetLimits(Machine.Step, i, maxSteps, hal, ss);
        }
      }
    } else {
      var hal := (_: nat) => Io(0, 0, 0);
      var ss := YieldsOverrun(YieldingTable(Yields(maxSteps + 1)), maxSteps + 1, 0, 0, maxSteps, hal);
      assert !WithinBound(0, maxSteps, hal, ss);
    }
  }

  // ---- and one that never ends ----

  // YIELD, then a jump back to it.
  function YieldLoop(): seq<Byte> { [YIELD_OP, 0x30, 0xFA, 0xFF, 0xFF, 0xFF] }

  lemma JumpBackRound(s: Sys, n: nat, hal: nat -> Io) returns (s': Sys)
    requires RunningAt(s, YieldLoop(), 1, n)
    ensures Round(Machine.Step, 0, hal, s, s') && RunningAt(s', YieldLoop(), 0, n + 1)
  {
    assert Decode(YieldLoop(), 1) == Decoded(Jmp(-6), 6);
    s' := SetBudget(StepSlot(Machine.Step, s, 0, hal(n)).s, 0, n + 1);
  }

  // With a bound of 67 or more, a call that runs this program has no end: it
  // executes k instructions for every k.
  lemma {:induction false} YieldLoopNeverEnds(s: Sys, pc: nat, n: nat, maxSteps: nat, hal: nat -> Io, k: nat)
      returns (ss: seq<Sys>)
    requires pc in {0, 1} && RunningAt(s, YieldLoop(), pc, n)
    requires n + pc <= REDUCTIONS + 2 < maxSteps && k > 0
    ensures IsRun(Machine.Step, 0, maxSteps, hal, ss) && |ss| == k && ss[0] == s
    decreases k
  {
    ss := [s];
    if k > 1 {
      var s';
      if pc == 0 {
        s' := YieldRound(s, YieldLoop(), 0, n, hal);
      } else {
        s' := JumpBackRound(s, n, hal);
      }
      var rest := YieldLoopNeverEnds(s', 1 - pc, if pc == 0 then REDUCTIONS + 1 else n + 1, maxSteps, hal, k - 1);
      Prepend(Machine.Step, 0, maxSteps, hal, s, rest);
      ss := [s] + rest;
    }
  }
}
