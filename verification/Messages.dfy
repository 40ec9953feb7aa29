// What a message carries from the registers of its sender to those of its
// receiver, through SEND, the ring buffer and RECV_CMD.
module Messages {
  import opened Term
  import opened Commands
  import opened Mailbox
  import opened Bytecode
  import opened Machine
  import opened System
  import opened Scheduling

  // p is about to execute i.
  predicate Stands(p: Proc, i: Instr) {
    && !p.c.halted && |p.regs| == REG_COUNT
    && Decode(p.c.program, p.c.pc).Decoded? && Decode(p.c.program, p.c.pc).instr == i
  }

  // The five words SEND takes, from type to d.
  function Payload(regs: seq<Word>, i: Instr): (ws: seq<Word>)
    requires i.Send? && i.Wellformed() && |regs| == REG_COUNT
    ensures |ws| == 5
  {
    [regs[i.rType], regs[i.rA], regs[i.rB], regs[i.rC], regs[i.rD]]
  }

  predicate AllSmallints(ws: seq<Word>) { forall k :: 0 <= k < |ws| ==> IsSmallint(ws[k]) }

  // Five words in the registers RECV_CMD names, written in this order.
  function Received5(regs: seq<Word>, i: Instr, ws: seq<Word>): seq<Word>
    requires i.RecvCmd? && i.Wellformed() && |regs| == REG_COUNT && |ws| == 5
  {
    regs[i.rType := ws[0]][i.rA := ws[1]][i.rB := ws[2]][i.rC := ws[3]][i.rD := ws[4]]
  }

  // The command that SEND makes of smallints is, tagged again, the words
  // themselves.
  lemma SendUntags(p: Proc, i: Instr, io: Io)
    requires Stands(p, i) && i.Send? && AllSmallints(Payload(p.regs, i))
    ensures Step(p, io).Sends?
    ensures var cmd := Step(p, io).cmd;
            Payload(p.regs, i) ==
              [MakeSmallint(cmd.kind), MakeSmallint(cmd.a), MakeSmallint(cmd.b), MakeSmallint(cmd.c),
                MakeSmallint(cmd.d)]
  {
    var ws := Payload(p.regs, i);
    SmallintCanonical(ws[0]);
    SmallintCanonical(ws[1]);
    SmallintCanonical(ws[2]);
    SmallintCanonical(ws[3]);
    SmallintCanonical(ws[4]);
  }

  // RECV_CMD writes the tagged fields of the oldest command.
  lemma ReceiveTags(q: Proc, i: Instr, io: Io)
    requires Stands(q, i) && i.RecvCmd? && q.c.mailbox.Valid() && q.c.mailbox.Contents() != []
    ensures var cmd, r := q.c.mailbox.Contents()[0], Step(q, io);
            && r.Did? && r.status.Ok?
            && r.p.regs == Received5(q.regs, i, [MakeSmallint(cmd.kind), MakeSmallint(cmd.a), MakeSmallint(cmd.b),
                                                 MakeSmallint(cmd.c), MakeSmallint(cmd.d)])
  {
    PopTakesOldest(q.c.mailbox);
    var cmd := q.c.mailbox.Contents()[0];
    WriteFive(q.regs, TagCommand(i, cmd.kind, cmd.a, cmd.b, cmd.c, cmd.d));
  }

  // ---- later in a history ----

  // t' is t with more events.
  predicate Extends(t: Trace, t': Trace)
    decreases t'
  {
    t' == t || (t'.Then? && Extends(t, t'.before))
  }

  lemma {:induction false} ExtendsJoin(t: Trace, t1: Trace, t2: Trace)
    requires Extends(t, t1) && Extends(t1, t2)
    ensures Extends(t, t2)
    decreases t2
  {
    if t2 != t1 {
      ExtendsJoin(t, t1, t2.before);
    }
  }

  lemma {:induction false} AcceptedStays(t: Trace, t': Trace, j: nat)
    requires Extends(t, t')
    ensures AcceptedBy(t, j) <= AcceptedBy(t', j)
    decreases t'
  {
    if t' != t {
      AcceptedStays(t, t'.before, j);
    }
  }

  lemma {:induction false} LoopExtends(m: Stepper, s: Sys, i: nat, maxSteps: nat, hal: nat -> Io, t: Trace, r: Ran)
    requires |s.procs| == SLOTS && i < SLOTS && maxSteps <= REDUCTIONS + 1
    requires r == Loop(m, s, i, maxSteps, hal, t) && r.Ran?
    ensures Extends(t, r.trace)
    decreases BudgetLeft(s, i, maxSteps)
  {
    if GoesOn(s, i, maxSteps) {
      var step := LoopGoesOn(m, s, t, i, maxSteps, hal, r);
      if step.status.Ok? && step.s.procs[i].c.state.Ready? {
        var next := SetBudget(step.s, i, step.s.procs[i].c.reductions + 1);
        LoopExtends(m, next, i, maxSteps, hal, Then(t, step.ev), r);
        ExtendsJoin(t, Then(t, step.ev), r.trace);
      }
    }
  }

  lemma TickExtends(m: Stepper, s: Sys, now: Word, hal: nat -> Io, t: Trace)
    requires |s.procs| == SLOTS && Tick(m, s, now, hal, t).Ran?
    ensures Extends(t, Tick(m, s, now, hal, t).trace)
  {
    var k := Pick(Wake(s, now), 0);
    if k < SLOTS {
      var r := Tick(m, s, now, hal, t);
      TickIsLoop(m, s, t, now, hal, k);
      LoopExtends(m, Turn(Wake(s, now), k), k, REDUCTIONS, hal, Then(t, Dispatched(k)), r);
      ExtendsJoin(t, Then(t, Dispatched(k)), r.trace);
    }
  }

  // A history adds to the trace and takes nothing back.
  lemma {:induction false} HistoryExtends(m: Stepper, s: Sys, acts: seq<Action>, t: Trace)
    requires |s.procs| == SLOTS && Perform(m, s, acts, t).Ran?
    ensures Extends(t, Perform(m, s, acts, t).trace)
    decreases |acts|
  {
    if acts != [] {
      var r := Act(m, s, acts[0], t);
      if acts[0].DoTick? {
        TickExtends(m, s, acts[0].now, acts[0].hal, t);
      }
      HistoryExtends(m, r.s, acts[1..], r.trace);
      ExtendsJoin(t, r.trace, Perform(m, s, acts, t).trace);
    }
  }

  // ---- arrival ----

  // The command accepted after n others is the one received after n others.
  lemma NextInLine(s: Sys, t: Trace, t0: Trace, ev: Event, j: nat)
    requires Good(s, t) && j < SLOTS && ev.IsAcceptance(j) && Extends(Then(t0, ev), t)
    requires |ReceivedBy(t, j)| == |AcceptedBy(t0, j)|
    ensures s.procs[j].c.mailbox.Valid() && s.procs[j].c.mailbox.Contents() != []
    ensures s.procs[j].c.mailbox.Contents()[0] == ev.cmd
  {
    AcceptedStays(Then(t0, ev), t, j);
    assert ConservedAt(s, t, j);
    var n, q := |AcceptedBy(t0, j)|, s.procs[j].c.mailbox.Contents();
    assert AcceptedBy(Then(t0, ev), j)[n] == ev.cmd;
    assert AcceptedBy(t, j)[n] == ev.cmd;
    assert (ReceivedBy(t, j) + q)[n] == q[0];
  }

  // A SEND of smallints that is accepted: whenever, later in whatever
  // history, the receiver stands at a RECV_CMD with all earlier mail taken,
  // that instruction writes the very words of the sender's registers.
  lemma SmallintsArriveIntact(s1: Sys, t1: Trace, i: nat, send: Instr, io1: Io, s2: Sys, t2: Trace, recv: Instr,
      io2: Io)
    requires |s1.procs| == SLOTS && i < SLOTS && Stands(s1.procs[i], send) && send.Send?
    requires AllSmallints(Payload(s1.procs[i].regs, send))
    requires StepSlot(Machine.Step, s1, i, io1).Stepped? && StepSlot(Machine.Step, s1, i, io1).ev.Sent?
    requires Good(s2, t2) && Extends(Then(t1, StepSlot(Machine.Step, s1, i, io1).ev), t2)
    requires var j := StepSlot(Machine.Step, s1, i, io1).ev.receiver;
             && j < SLOTS && Stands(s2.procs[j], recv) && recv.RecvCmd?
             && |ReceivedBy(t2, j)| == |AcceptedBy(t1, j)|
    ensures var ev := StepSlot(Machine.Step, s1, i, io1).ev;
            var r := StepSlot(Machine.Step, s2, ev.receiver, io2);
            && r.Stepped? && r.status.Ok? && r.ev == Received(ev.receiver, ev.cmd)
            && r.s.procs[ev.receiver].regs ==
                 Received5(s2.procs[ev.receiver].regs, recv, Payload(s1.procs[i].regs, send))
  {
    SendUntags(s1.procs[i], send, io1);
    var ev := StepSlot(Machine.Step, s1, i, io1).ev;
    NextInLine(s2, t2, t1, ev, ev.receiver);
    Arrives(s2, ev.receiver, recv, io2, ev.cmd, Payload(s1.procs[i].regs, send));
  }

  lemma Arrives(s: Sys, j: nat, i: Instr, io: Io, cmd: Command, ws: seq<Word>)
    requires |s.procs| == SLOTS && j < SLOTS && Stands(s.procs[j], i) && i.RecvCmd?
    requires s.procs[j].c.mailbox.Valid() && s.procs[j].c.mailbox.Contents() != []
    requires s.procs[j].c.mailbox.Contents()[0] == cmd
    requires ws == [MakeSmallint(cmd.kind), MakeSmallint(cmd.a), MakeSmallint(cmd.b), MakeSmallint(cmd.c),
                     MakeSmallint(cmd.d)]
    ensures var r := StepSlot(Machine.Step, s, j, io);
            && r.Stepped? && r.status.Ok? && r.ev == Received(j, cmd)
            && r.s.procs[j].regs == Received5(s.procs[j].regs, i, ws)
  {
    var q := s.procs[j];
    ReceiveTags(q, i, io);
    PopTakesOldest(q.c.mailbox);
    assert AtReceive(q.c) && Tame(q, Machine.Step(q, io));
  }
}
