// Whole runs of one process among others: its own instructions, interleaved
// with whatever the scheduler and the other processes do to it.
module Runs {
  import opened Term
  import opened Graph
  import opened Commands
  import opened Bytecode
  import opened Machine
  import opened TreeMachine
  import opened Refinement

  // reply is what a SEND is told; the other inputs come from outside.
  datatype Input =
    | Instruction(io: Io, reply: Status)
    | Deliver(cmd: Command)
    | WakeUp
    | Budget(n: nat)

  datatype Reaction = Wrecked | Reacted(p: Proc)

  function Environment(c: Control, input: Input): Control
    requires !input.Instruction?
  {
    match input
    case Deliver(cmd) => Accept(c, cmd).0
    case WakeUp => if c.state.Sleeping? then c.(state := Ready) else c
    case Budget(n) => c.(reductions := n)
  }

  function React(p: Proc, input: Input): Reaction {
    if !input.Instruction? then Reacted(p.(c := Environment(p.c, input))) else
      match Step(p, input.io)
      case Undefined => Wrecked
      case Did(p', _) => Reacted(p')
      case Sends(p', rPid, _, _) =>
        Reacted(p'.(regs := WriteAll(p'.regs, [Write(rPid, MakeSmallint(input.reply.Code()))])))
  }

  function TreeReact(t: TreeProc, input: Input, h: Hint): TreeProc {
    if !input.Instruction? then t.(c := Environment(t.c, input)) else
      match TreeStep(t, input.io, h)
      case TreeDid(t', _) => t'
      case TreeSends(t', rPid, _, _) =>
        t'.(regs := WriteLeaves(t'.regs, [Write(rPid, MakeSmallint(input.reply.Code()))]))
  }

  function Run(p: Proc, inputs: seq<Input>): Reaction
    decreases |inputs|
  {
    if inputs == [] then Reacted(p) else
      match React(p, inputs[0])
      case Wrecked => Wrecked
      case Reacted(p') => Run(p', inputs[1..])
  }

  function TreeRun(t: TreeProc, inputs: seq<Input>, hints: seq<Hint>): TreeProc
    requires |hints| == |inputs|
    decreases |inputs|
  {
    if inputs == [] then t else TreeRun(TreeReact(t, inputs[0], hints[0]), inputs[1..], hints[1..])
  }

  // Every collection of the run is one that CollectSafe allows.
  ghost predicate Guarded(p: Proc, inputs: seq<Input>)
    decreases |inputs|
  {
    inputs == [] ||
    (&& (inputs[0].Instruction? ==> CollectSafe(p, Next(p)))
     && (React(p, inputs[0]).Reacted? ==> Guarded(React(p, inputs[0]).p, inputs[1..])))
  }

  // h tells where the registers of p point, and whether its next allocation
  // fits into what the live data leaves.
  ghost predicate HintAt(p: Proc, h: Hint) { exists objs :: SafeWith(p, objs) && h == HintFor(p, objs, Next(p)) }

  // Every hint is true of the state it is given for.
  ghost predicate HintsAlong(p: Proc, inputs: seq<Input>, hints: seq<Hint>)
    requires |hints| == |inputs|
    decreases |inputs|
  {
    inputs == [] ||
    (&& HintAt(p, hints[0])
     && (React(p, inputs[0]).Reacted? ==> HintsAlong(React(p, inputs[0]).p, inputs[1..], hints[1..])))
  }

  lemma ReactRefines(p: Proc, objs: Objects, trees: seq<Tree>, input: Input) returns (objs': Objects, h: Hint)
    requires Denoting(p, objs, trees)
    requires input.Instruction? ==> CollectSafe(p, Next(p))
    ensures React(p, input).Reacted? && h == HintFor(p, objs, Next(p))
    ensures var t := TreeReact(TreeProc(p.c, trees), input, h);
            React(p, input).p.c == t.c && Denoting(React(p, input).p, objs', t.regs)
  {
    objs', h := objs, HintFor(p, objs, Next(p));
    if input.Instruction? {
      objs' := StepRefines(p, objs, trees, input.io);
      var r, q := Step(p, input.io), TreeStep(TreeProc(p.c, trees), input.io, h);
      if r.Sends? {
        Tagged(input.reply.Code());
        WriteRefines(r.p, objs', q.t.regs, [Write(r.rPid, MakeSmallint(input.reply.Code()))]);
      }
    } else {
      var p' := p.(c := Environment(p.c, input));
      assert SnapshotOf(p', objs) == SnapshotOf(p, objs);
    }
  }

  // For any program, any inputs and any number of collections: the run never
  // touches memory it does not own, its registers and heap stay well formed,
  // and it is the run of the machine on trees that is told the truth about
  // addresses and room.
  lemma {:induction false} RunRefines(p: Proc, objs: Objects, trees: seq<Tree>, inputs: seq<Input>)
      returns (objs': Objects, hints: seq<Hint>)
    requires Denoting(p, objs, trees) && Guarded(p, inputs)
    ensures Run(p, inputs).Reacted? && |hints| == |inputs| && HintsAlong(p, inputs, hints)
    ensures var t := TreeRun(TreeProc(p.c, trees), inputs, hints);
            Run(p, inputs).p.c == t.c && Denoting(Run(p, inputs).p, objs', t.regs)
    decreases |inputs|
  {
    if inputs == [] {
      objs', hints := objs, [];
    } else {
      var objs1, h := ReactRefines(p, objs, trees, inputs[0]);
      var t1 := TreeReact(TreeProc(p.c, trees), inputs[0], h);
      var p1 := React(p, inputs[0]).p;
      var rest;
      objs', rest := RunRefines(p1, objs1, t1.regs, inputs[1..]);
      hints := [h] + rest;
      assert hints[1..] == rest && HintAt(p, hints[0]);
      assert TreeProc(p1.c, t1.regs) == t1;
    }
  }

  // What the registers of a spawned process stand for.
  function StartTrees(): seq<Tree> { seq(REG_COUNT, _ => Leaf(0)) }

  // A spawned process starts well formed, with the word 0 in every register.
  lemma SpawnedIsSafe(pid: nat, program: seq<Byte>, capacity: nat)
    requires capacity <= MAX_SPACE
    ensures Denoting(Spawned(pid, program, capacity), map[], StartTrees())
  {
  }

  // Term safety for arbitrary bytecode, from the start of a process on.
  lemma ArbitraryBytecodeIsSafe(pid: nat, program: seq<Byte>, capacity: nat, inputs: seq<Input>)
    requires capacity <= MAX_SPACE && Guarded(Spawned(pid, program, capacity), inputs)
    ensures var r := Run(Spawned(pid, program, capacity), inputs);
            r.Reacted? && exists objs :: SafeWith(r.p, objs)
  {
    SpawnedIsSafe(pid, program, capacity);
    var objs, hints := RunRefines(Spawned(pid, program, capacity), map[], StartTrees(), inputs);
  }
}
