// What every history of the scheduler keeps, for every program in every slot
// and every instruction set with the discipline of Machine.Tame: the shape of
// the process table, no lost wake-up, FIFO mail and process isolation.
module Scheduling {
  import opened Term
  import opened Commands
  import opened Mailbox
  import opened Bytecode
  import opened Machine
  import opened System

  // ---- the invariant ----

  // Used slots form a prefix; a PID is its slot plus one; halted agrees with
  // HALTED; queued commands are valid; a WAITING process stands at a RECV_CMD
  // and has no mail.
  ghost predicate ProcInv(p: Proc, i: nat, count: nat) {
    && p.Shaped()
    && (p.c.state.Free? <==> i >= count)
    && p.c.pid == (if i < count then i + 1 else 0)
    && (p.c.halted <==> p.c.state.Halted?)
    && p.c.mailbox.Valid()
    && (p.c.state.Free? ==> p.c.mailbox.Contents() == [])
    && (p.c.state.Waiting? ==> AtReceive(p.c) && p.c.mailbox.Contents() == [])
  }

  ghost predicate Inv(s: Sys) {
    && |s.procs| == SLOTS && s.current < SLOTS && s.count <= SLOTS
    && forall j: nat :: InvAt(s, j)
  }

  ghost predicate InvAt(s: Sys, j: nat) {
    j < SLOTS && j < |s.procs| ==> ProcInv(s.procs[j], j, s.count)
  }

  // All that may happen to a process while others run: commands are appended
  // to its mailbox, which readies it if it was waiting.
  ghost predicate Grew(p: Proc, p': Proc) {
    && p' == p.(c := p.c.(mailbox := p'.c.mailbox, state := p'.c.state))
    && (p'.c.state == p.c.state || (p.c.state.Waiting? && p'.c.state.Ready?))
    && p.c.mailbox.Valid() && p'.c.mailbox.Valid()
    && p.c.mailbox.Contents() <= p'.c.mailbox.Contents()
  }

  // Every process but i grew.
  ghost predicate OthersGrew(s: Sys, s': Sys, i: nat) { forall j: nat :: GrewAt(s, s', i, j) }

  ghost predicate GrewAt(s: Sys, s': Sys, i: nat, j: nat) {
    j < SLOTS && j < |s.procs| && j < |s'.procs| && j != i ==> Grew(s.procs[j], s'.procs[j])
  }

  lemma GrewTransitive(p: Proc, q: Proc, r: Proc)
    requires Grew(p, q) && Grew(q, r)
    ensures Grew(p, r)
  {
  }

  // ---- mail conservation ----

  function AcceptedBy(t: Trace, j: nat): seq<Command> {
    match t
    case Start => []
    case Then(before, ev) => AcceptedBy(before, j) + if ev.IsAcceptance(j) then [ev.cmd] else []
  }

  function ReceivedBy(t: Trace, j: nat): seq<Command> {
    match t
    case Start => []
    case Then(before, ev) => ReceivedBy(before, j) + if ev.IsReceipt(j) then [ev.cmd] else []
  }

  // What was accepted is what was received followed by what is queued.
  ghost predicate ConservedAt(s: Sys, t: Trace, j: nat) {
    j < SLOTS && j < |s.procs| ==>
      && s.procs[j].c.mailbox.Valid()
      && AcceptedBy(t, j) == ReceivedBy(t, j) + s.procs[j].c.mailbox.Contents()
  }

  ghost predicate Conserved(s: Sys, t: Trace) { forall j: nat :: ConservedAt(s, t, j) }

  // ---- posting ----

  lemma AcceptAppends(p: Proc, i: nat, count: nat, cmd: Command)
    requires ProcInv(p, i, count) && i < count
    ensures var (c, st) := Accept(p.c, cmd);
            && ProcInv(p.(c := c), i, count)
            && Grew(p, p.(c := c))
            && (!st.Ok? ==> c == p.c)
            && c.mailbox.Contents() == p.c.mailbox.Contents() + (if st.Ok? then [cmd] else [])
            && (st.Ok? ==> Validate(cmd).Ok? && !c.state.Waiting?)
  {
    PushAppends(p.c.mailbox, cmd);
  }

  ghost predicate PostedAt(s: Sys, s': Sys, pid: nat, cmd: Command, ok: bool, j: nat) {
    j < SLOTS && j < |s.procs| && j < |s'.procs| ==>
      && Grew(s.procs[j], s'.procs[j])
      && if ok && j == pid - 1
         then s'.procs[j].c.mailbox.Contents() == s.procs[j].c.mailbox.Contents() + [cmd]
           && !s'.procs[j].c.state.Waiting?
         else s'.procs[j] == s.procs[j]
  }

  // A post changes nothing, or appends to one mailbox.
  lemma PostKeeps(s: Sys, pid: nat, cmd: Command)
    requires Inv(s)
    ensures var (s', st) := Post(s, pid, cmd);
            && Inv(s') && s' == s.(procs := s'.procs)
            && (!st.Ok? ==> s' == s)
            && (st.Ok? ==> 1 <= pid <= s.count && Validate(cmd).Ok?)
            && (forall j: nat :: PostedAt(s, s', pid, cmd, st.Ok?, j))
  {
    var k := Lookup(s, pid);
    assert InvAt(s, k);
    if k < SLOTS {
      AcceptAppends(s.procs[k], k, s.count, cmd);
    }
    var (s', st) := Post(s, pid, cmd);
    forall j: nat
      ensures InvAt(s', j) && PostedAt(s, s', pid, cmd, st.Ok?, j)
    {
      assert InvAt(s, j);
    }
  }

  // ---- one instruction ----

  // Process i before and after one of its own instructions, apart from mail
  // it sends to itself.
  lemma OwnStep(m: Stepper, p: Proc, i: nat, count: nat, io: Io)
    requires ProcInv(p, i, count) && p.c.state.Ready?
    ensures var r := m(p, io);
            && (r.Did? ==>
                  && ProcInv(r.p, i, count)
                  && r.p.c.program == p.c.program
                  && (r.p.c.mailbox == p.c.mailbox
                      || (p.c.mailbox.Contents() != []
                        && RingPop(p.c.mailbox) == Popped(r.p.c.mailbox, p.c.mailbox.Contents()[0])
                          && r.p.c.mailbox.Contents() == p.c.mailbox.Contents()[1..])))
            && (r.Sends? ==> ProcInv(r.p, i, count) && r.p == p.(c := p.c.(pc := r.p.c.pc)))
  {
    var r := m(p, io);
    assert Tame(p, r);
    PopTakesOldest(p.c.mailbox);
  }

  // A reachable-looking state: the table is in order and no mail was lost.
  ghost predicate Good(s: Sys, t: Trace) { Inv(s) && Conserved(s, t) }

  // What a slice of process i does to the system.
  ghost predicate SliceOf(s: Sys, t: Trace, s': Sys, t': Trace, i: nat) {
    && Good(s', t') && s' == s.(procs := s'.procs) && i < SLOTS == |s.procs|
    && s'.procs[i].c.program == s.procs[i].c.program
    && OthersGrew(s, s', i)
  }

  lemma SliceJoin(s: Sys, t: Trace, s1: Sys, t1: Trace, s2: Sys, t2: Trace, i: nat)
    requires SliceOf(s, t, s1, t1, i) && SliceOf(s1, t1, s2, t2, i)
    ensures SliceOf(s, t, s2, t2, i)
  {
    forall j: nat
      ensures GrewAt(s, s2, i, j)
    {
      assert GrewAt(s, s1, i, j) && GrewAt(s1, s2, i, j);
    }
  }

  // Replacing process i by one that is in order and accounts for its mail.
  lemma OwnSlice(s: Sys, t: Trace, i: nat, p: Proc)
    requires Good(s, t) && i < SLOTS && ProcInv(p, i, s.count) && p.c.program == s.procs[i].c.program
    requires s.procs[i].c.mailbox.Valid() && p.c.mailbox.Contents() == s.procs[i].c.mailbox.Contents()
    ensures SliceOf(s, t, s.(procs := s.procs[i := p]), t, i)
  {
    var s' := s.(procs := s.procs[i := p]);
    forall j: nat
      ensures InvAt(s', j) && GrewAt(s, s', i, j) && ConservedAt(s', t, j)
    {
      assert InvAt(s, j) && ConservedAt(s, t, j);
    }
  }

  // The same, with the event of an instruction that sent nothing.
  lemma OwnEvent(s: Sys, t: Trace, i: nat, p: Proc, ev: Event)
    requires Good(s, t) && i < SLOTS && ProcInv(p, i, s.count) && p.c.program == s.procs[i].c.program
    requires s.procs[i].c.mailbox.Valid() && ev.IsInstruction(i) && !ev.Sent?
    requires var q, q' := s.procs[i].c.mailbox.Contents(), p.c.mailbox.Contents();
             if ev.Received? then q == [ev.cmd] + q' else q == q'
    ensures SliceOf(s, t, s.(procs := s.procs[i := p]), Then(t, ev), i)
  {
    var s', t' := s.(procs := s.procs[i := p]), Then(t, ev);
    forall j: nat
      ensures InvAt(s', j) && GrewAt(s, s', i, j)
    {
      assert InvAt(s, j);
    }
    forall j: nat
      ensures ConservedAt(s', t', j)
    {
      assert InvAt(s, j) && ConservedAt(s, t, j);
      EventConserves(s, t, s', ev, j);
    }
  }

  lemma EventConserves(s: Sys, t: Trace, s': Sys, ev: Event, j: nat)
    requires |s.procs| == |s'.procs| == SLOTS && ConservedAt(s, t, j) && !ev.Sent? && !ev.Posted?
    requires j < SLOTS ==> s.procs[j].c.mailbox.Valid() && s'.procs[j].c.mailbox.Valid()
    requires j < SLOTS ==>
               var q, q' := s.procs[j].c.mailbox.Contents(), s'.procs[j].c.mailbox.Contents();
               if ev.IsReceipt(j) then q == [ev.cmd] + q' else q == q'
    ensures ConservedAt(s', Then(t, ev), j)
  {
  }

  // The event of an instruction tells which command left the mailbox.
  lemma OwnMail(m: Stepper, p: Proc, i: nat, count: nat, io: Io)
    requires ProcInv(p, i, count) && p.c.state.Ready? && m(p, io).Did?
    ensures var mb := m(p, io).p.c.mailbox;
            var ev := MailEvent(i, p.c.mailbox, mb);
            && mb.Valid() && !ev.Sent? && !ev.Posted? && ev.slot == i
            && (ev.Received? ==> p.c.mailbox.Contents() == [ev.cmd] + mb.Contents())
            && (!ev.Received? ==> p.c.mailbox.Contents() == mb.Contents())
  {
    OwnStep(m, p, i, count, io);
    if p.c.mailbox.Contents() != [] {
      var q := p.c.mailbox.Contents();
      assert q == [q[0]] + q[1..];
    }
  }

  lemma DidKeeps(m: Stepper, s: Sys, t: Trace, i: nat, io: Io)
    requires Good(s, t) && i < SLOTS && s.procs[i].c.state.Ready? && m(s.procs[i], io).Did?
    ensures var r := StepSlot(m, s, i, io); SliceOf(s, t, r.s, Then(t, r.ev), i)
  {
    assert InvAt(s, i);
    OwnStep(m, s.procs[i], i, s.count, io);
    OwnMail(m, s.procs[i], i, s.count, io);
    var p := m(s.procs[i], io).p;
    OwnEvent(s, t, i, p, MailEvent(i, s.procs[i].c.mailbox, p.c.mailbox));
  }

  lemma PostedConserves(s: Sys, t: Trace, s': Sys, pid: nat, cmd: Command, ok: bool, ev: Event, j: nat)
    requires |s.procs| == |s'.procs| && ConservedAt(s, t, j) && PostedAt(s, s', pid, cmd, ok, j)
    requires if ok then (ev.Sent? || ev.Posted?) && ev.receiver == pid - 1 && ev.cmd == cmd
             else !ev.Sent? && !ev.Posted? && !ev.Received?
    ensures ConservedAt(s', Then(t, ev), j)
  {
  }

  lemma PostGood(s: Sys, t: Trace, pid: nat, cmd: Command, ev: Event)
    requires Good(s, t)
    requires var st := Post(s, pid, cmd).1;
             if st.Ok? then (ev.Sent? || ev.Posted?) && ev.receiver == pid - 1 && ev.cmd == cmd
             else !ev.Sent? && !ev.Posted? && !ev.Received?
    ensures Good(Post(s, pid, cmd).0, Then(t, ev))
  {
    PostKeeps(s, pid, cmd);
    var (s', st) := Post(s, pid, cmd);
    var t' := Then(t, ev);
    forall j: nat
      ensures ConservedAt(s', t', j)
    {
      assert ConservedAt(s, t, j) && PostedAt(s, s', pid, cmd, st.Ok?, j);
      PostedConserves(s, t, s', pid, cmd, st.Ok?, ev, j);
    }
  }

  function SendEvent(i: nat, target: nat, cmd: Command, st: Status): Event {
    if st.Ok? && target > 0 then Sent(i, target - 1, cmd) else Bounced(i, target, cmd)
  }

  lemma PostSlice(s: Sys, t: Trace, i: nat, target: nat, cmd: Command)
    requires Good(s, t) && i < SLOTS
    ensures var (s1, st) := Post(s, target, cmd);
            SliceOf(s, t, s1, Then(t, SendEvent(i, target, cmd, st)), i) && (st.Ok? ==> target > 0)
  {
    PostKeeps(s, target, cmd);
    var (s1, st) := Post(s, target, cmd);
    PostGood(s, t, target, cmd, SendEvent(i, target, cmd, st));
    assert PostedAt(s, s1, target, cmd, st.Ok?, i);
    forall j: nat
      ensures GrewAt(s, s1, i, j)
    {
      assert PostedAt(s, s1, target, cmd, st.Ok?, j);
    }
  }

  lemma SendKeeps(m: Stepper, s: Sys, t: Trace, i: nat, io: Io)
    requires Good(s, t) && i < SLOTS && s.procs[i].c.state.Ready? && m(s.procs[i], io).Sends?
    ensures var r := StepSlot(m, s, i, io); SliceOf(s, t, r.s, Then(t, r.ev), i)
  {
    assert InvAt(s, i);
    OwnStep(m, s.procs[i], i, s.count, io);
    var o := m(s.procs[i], io);
    var s0 := s.(procs := s.procs[i := o.p]);
    OwnSlice(s, t, i, o.p);
    PostSlice(s0, t, i, o.target, o.cmd);
    var (s1, st) := Post(s0, o.target, o.cmd);
    var t1 := Then(t, SendEvent(i, o.target, o.cmd, st));
    var s2 := Reply(s1, i, o.rPid, st);
    assert InvAt(s1, i);
    OwnSlice(s1, t1, i, s2.procs[i]);
    SliceJoin(s, t, s0, t, s1, t1, i);
    SliceJoin(s, t, s1, t1, s2, t1, i);
  }

  // One instruction of a READY process.
  lemma StepKeeps(m: Stepper, s: Sys, t: Trace, i: nat, io: Io) returns (s': Sys, ev: Event)
    requires Good(s, t) && i < SLOTS && s.procs[i].c.state.Ready?
    requires StepSlot(m, s, i, io).Stepped?
    ensures StepSlot(m, s, i, io).s == s' && StepSlot(m, s, i, io).ev == ev
    ensures SliceOf(s, t, s', Then(t, ev), i)
  {
    s', ev := StepSlot(m, s, i, io).s, StepSlot(m, s, i, io).ev;
    if m(s.procs[i], io).Did? {
      DidKeeps(m, s, t, i, io);
    } else {
      SendKeeps(m, s, t, i, io);
    }
  }

  // ---- a slice, a tick, an action, a history ----

  // t' continues t with n instructions of process i and nothing else.
  ghost predicate Continues(t: Trace, t': Trace, i: nat, n: nat)
    decreases t'
  {
    (t' == t && n == 0) || (t'.Then? && n > 0 && t'.ev.IsInstruction(i) && Continues(t, t'.before, i, n - 1))
  }

  // How many instructions of process j are in the trace.
  function StepsOf(t: Trace, j: nat): nat {
    match t
    case Start => 0
    case Then(before, ev) => StepsOf(before, j) + if ev.IsInstruction(j) then 1 else 0
  }

  lemma {:induction false} ContinuesJoin(t: Trace, t1: Trace, t2: Trace, i: nat, n1: nat, n2: nat)
    requires Continues(t, t1, i, n1) && Continues(t1, t2, i, n2)
    ensures Continues(t, t2, i, n1 + n2)
    decreases t2
  {
    if !(t2 == t1 && n2 == 0) {
      ContinuesJoin(t, t1, t2.before, i, n1, n2 - 1);
    }
  }

  lemma BudgetKeeps(s: Sys, t: Trace, i: nat, n: nat)
    requires Good(s, t) && i < SLOTS
    ensures SliceOf(s, t, SetBudget(s, i, n), t, i)
  {
    assert InvAt(s, i);
    OwnSlice(s, t, i, s.procs[i].(c := s.procs[i].c.(reductions := n)));
  }

  lemma SliceRefl(s: Sys, t: Trace, i: nat)
    requires Good(s, t) && i < SLOTS
    ensures SliceOf(s, t, s, t, i)
  {
    BudgetKeeps(s, t, i, s.procs[i].c.reductions);
    assert SetBudget(s, i, s.procs[i].c.reductions) == s;
  }

  // The loop from a state where its next instruction does not end it.
  lemma LoopGoesOn(m: Stepper, s: Sys, t: Trace, i: nat, maxSteps: nat, hal: nat -> Io, r: Ran)
      returns (step: Stepped)
    requires |s.procs| == SLOTS && i < SLOTS && maxSteps <= REDUCTIONS + 1
    requires !s.procs[i].c.halted && s.procs[i].c.reductions < maxSteps
    requires r == Loop(m, s, i, maxSteps, hal, t) && r.Ran?
    ensures step == StepSlot(m, s, i, hal(s.procs[i].c.reductions)) && step.Stepped?
    ensures if step.status.Ok? && step.s.procs[i].c.state.Ready?
            then
              var s1 := SetBudget(step.s, i, step.s.procs[i].c.reductions + 1);
              && r == Loop(m, s1, i, maxSteps, hal, Then(t, step.ev))
              && BudgetLeft(s1, i, maxSteps) < BudgetLeft(s, i, maxSteps)
            else r == Ran(step.s, step.status, Then(t, step.ev))
  {
    step := StepSlot(m, s, i, hal(s.procs[i].c.reductions));
  }

  // The loop after one defined instruction.
  lemma LoopStep(m: Stepper, s: Sys, t: Trace, i: nat, maxSteps: nat, hal: nat -> Io, s1: Sys, st: Status, ev: Event)
    requires |s.procs| == SLOTS && i < SLOTS && maxSteps <= REDUCTIONS + 1
    requires !s.procs[i].c.halted && s.procs[i].c.reductions < maxSteps
    requires StepSlot(m, s, i, hal(s.procs[i].c.reductions)) == Stepped(s1, st, ev)
    ensures |s1.procs| == SLOTS
    ensures Loop(m, s, i, maxSteps, hal, t) ==
              if st.Ok? && s1.procs[i].c.state.Ready?
              then Loop(m, SetBudget(s1, i, s1.procs[i].c.reductions + 1), i, maxSteps, hal, Then(t, ev))
              else Ran(s1, st, Then(t, ev))
  {
  }

  // An instruction after which the loop goes on.
  lemma LoopOn(m: Stepper, s: Sys, t: Trace, i: nat, k: nat, hal: nat -> Io, step: Stepped, r: Ran) returns (s': Sys)
    requires GoesOn(s, i, REDUCTIONS) && s.procs[i].c.reductions == k && r == Loop(m, s, i, REDUCTIONS, hal, t)
    requires step == StepSlot(m, s, i, hal(k)) && step.Stepped? && step.status.Ok?
    requires step.s.procs[i].c.state.Ready? && step.s.procs[i].c.reductions == k
    ensures s' == SetBudget(step.s, i, k + 1) && |s'.procs| == SLOTS
    ensures r == Loop(m, s', i, REDUCTIONS, hal, Then(t, step.ev))
  {
    LoopStep(m, s, t, i, REDUCTIONS, hal, step.s, step.status, step.ev);
    s' := SetBudget(step.s, i, k + 1);
  }

  // An instruction that ends the loop.
  lemma LoopEnds(m: Stepper, s: Sys, t: Trace, i: nat, hal: nat -> Io, step: Stepped, r: Ran)
    requires GoesOn(s, i, REDUCTIONS) && r == Loop(m, s, i, REDUCTIONS, hal, t)
    requires step == StepSlot(m, s, i, hal(s.procs[i].c.reductions)) && step.Stepped? && !step.status.Ok?
    ensures r == Ran(step.s, step.status, Then(t, step.ev))
  {
    LoopStep(m, s, t, i, REDUCTIONS, hal, step.s, step.status, step.ev);
  }

  // A defined instruction ends the loop or brings it round.
  lemma LoopTurns(m: Stepper, s: Sys, t: Trace, i: nat, maxSteps: nat, hal: nat -> Io, r: Ran)
      returns (again: bool, step: Stepped, next: Sys, t': Trace)
    requires maxSteps <= REDUCTIONS + 1 && GoesOn(s, i, maxSteps) && r == Loop(m, s, i, maxSteps, hal, t)
    requires StepSlot(m, s, i, hal(s.procs[i].c.reductions)).Stepped?
    ensures step == StepSlot(m, s, i, hal(s.procs[i].c.reductions)) && step.Stepped? && |step.s.procs| == SLOTS
    ensures again ==> Round(m, i, hal, s, next) && r == Loop(m, next, i, maxSteps, hal, t')
    ensures again ==> next == SetBudget(step.s, i, step.s.procs[i].c.reductions + 1)
    ensures again ==> BudgetLeft(next, i, maxSteps) < BudgetLeft(s, i, maxSteps)
    ensures !again ==> r.Ran? && r.s == next == step.s
  {
    step := StepSlot(m, s, i, hal(s.procs[i].c.reductions));
    LoopStep(m, s, t, i, maxSteps, hal, step.s, step.status, step.ev);
    again, next, t' := false, step.s, Then(t, step.ev);
    if step.status.Ok? && step.s.procs[i].c.state.Ready? {
      again, next := true, SetBudget(step.s, i, step.s.procs[i].c.reductions + 1);
    }
  }

  // One round of the loop: it ends there, or goes on from (s', t').
  lemma LoopRound(m: Stepper, s: Sys, t: Trace, i: nat, maxSteps: nat, hal: nat -> Io, r: Ran)
      returns (again: bool, s': Sys, st: Status, t': Trace)
    requires Good(s, t) && i < SLOTS && s.procs[i].c.state.Ready? && maxSteps <= REDUCTIONS + 1
    requires s.procs[i].c.reductions < maxSteps && r == Loop(m, s, i, maxSteps, hal, t) && r.Ran?
    ensures SliceOf(s, t, s', t', i) && Continues(t, t', i, 1)
    ensures again ==> r == Loop(m, s', i, maxSteps, hal, t')
    ensures again ==> s'.procs[i].c.state.Ready? && BudgetLeft(s', i, maxSteps) < BudgetLeft(s, i, maxSteps)
    ensures !again ==> r == Ran(s', st, t')
    ensures StepSlot(m, s, i, hal(s.procs[i].c.reductions)).Stepped?
    ensures t' == Then(t, StepSlot(m, s, i, hal(s.procs[i].c.reductions)).ev)
  {
    assert InvAt(s, i);
    var step := LoopGoesOn(m, s, t, i, maxSteps, hal, r);
    var s1, ev := StepKeeps(m, s, t, i, hal(s.procs[i].c.reductions));
    again, s', st, t' := false, s1, step.status, Then(t, ev);
    assert Continues(t, t', i, 1);
    if st.Ok? && s1.procs[i].c.state.Ready? {
      again, s' := true, SetBudget(s1, i, s1.procs[i].c.reductions + 1);
      BudgetKeeps(s1, t', i, s1.procs[i].c.reductions + 1);
      SliceJoin(s, t, s1, t', s', t', i);
    }
  }

  lemma RoundThenLoop(s: Sys, t: Trace, s1: Sys, t1: Trace, s': Sys, t': Trace, i: nat, n: nat)
    requires SliceOf(s, t, s1, t1, i) && Continues(t, t1, i, 1)
    requires SliceOf(s1, t1, s', t', i) && Continues(t1, t', i, n)
    ensures SliceOf(s, t, s', t', i) && Continues(t, t', i, n + 1)
  {
    SliceJoin(s, t, s1, t1, s', t', i);
    ContinuesJoin(t, t1, t', i, 1, n);
  }

  lemma {:induction false} LoopKeeps(m: Stepper, s: Sys, t: Trace, i: nat, maxSteps: nat, hal: nat -> Io, r: Ran)
      returns (s': Sys, st: Status, t': Trace, n: nat)
    requires Good(s, t) && i < SLOTS && s.procs[i].c.state.Ready? && maxSteps <= REDUCTIONS + 1
    requires r == Loop(m, s, i, maxSteps, hal, t) && r.Ran?
    ensures r == Ran(s', st, t')
    ensures SliceOf(s, t, s', t', i) && Continues(t, t', i, n)
    ensures n <= BudgetLeft(s, i, maxSteps)
    decreases BudgetLeft(s, i, maxSteps)
  {
    if s.procs[i].c.reductions >= maxSteps {
      s', st, t', n := s, Ok, t, 0;
      SliceRefl(s, t, i);
    } else {
      var again, s1, st1, t1 := LoopRound(m, s, t, i, maxSteps, hal, r);
      if again {
        var k;
        s', st, t', k := LoopKeeps(m, s1, t1, i, maxSteps, hal, r);
        RoundThenLoop(s, t, s1, t1, s', t', i, k);
        n := k + 1;
      } else {
        s', st, t', n := s1, st1, t1, 1;
      }
    }
  }

  lemma SliceKeeps(m: Stepper, s: Sys, t: Trace, i: nat, hal: nat -> Io, r: Ran)
      returns (s': Sys, st: Status, t': Trace, n: nat)
    requires Good(s, t) && i < SLOTS && s.procs[i].c.state.Ready?
    requires r == RunProcess(m, s, i, REDUCTIONS, hal, t) && r.Ran?
    ensures r == Ran(s', st, t')
    ensures SliceOf(s, t, s', t', i) && Continues(t, t', i, n) && n <= REDUCTIONS
  {
    BudgetKeeps(s, t, i, 0);
    var s1 := SetBudget(s, i, 0);
    s', st, t', n := LoopKeeps(m, s1, t, i, REDUCTIONS, hal, r);
    SliceJoin(s, t, s1, t, s', t', i);
  }

  lemma WakeGood(s: Sys, t: Trace, now: Word)
    requires Good(s, t)
    ensures Good(Wake(s, now), t)
  {
    var s' := Wake(s, now);
    forall j: nat
      ensures InvAt(s', j) && ConservedAt(s', t, j)
    {
      assert InvAt(s, j) && ConservedAt(s, t, j);
    }
  }

  lemma DispatchGood(s: Sys, t: Trace, k: nat)
    requires Good(s, t)
    ensures Good(s.(current := (k + 1) % SLOTS), Then(t, Dispatched(k)))
  {
    var s', t' := s.(current := (k + 1) % SLOTS), Then(t, Dispatched(k));
    forall j: nat
      ensures InvAt(s', j) && ConservedAt(s', t', j)
    {
      assert InvAt(s, j) && ConservedAt(s, t, j);
    }
  }

  // What a tick that dispatches k does: it runs at most 64 instructions of k,
  // and the other processes only get mail.
  ghost predicate TickOf(s: Sys, t: Trace, now: Word, s': Sys, t': Trace, k: nat, n: nat) {
    && k < SLOTS && s'.count == s.count && s'.current == (k + 1) % SLOTS
    && Continues(Then(t, Dispatched(k)), t', k, n) && n <= REDUCTIONS
    && OthersGrew(Wake(s, now), s', k)
  }

  lemma TickIsRun(m: Stepper, s: Sys, t: Trace, now: Word, hal: nat -> Io, k: nat)
    requires |s.procs| == SLOTS && Pick(Wake(s, now), 0) == k < SLOTS
    ensures Tick(m, s, now, hal, t) ==
              RunProcess(m, Wake(s, now).(current := (k + 1) % SLOTS), k, REDUCTIONS, hal, Then(t, Dispatched(k)))
  {
  }

  lemma TickIsLoop(m: Stepper, s: Sys, t: Trace, now: Word, hal: nat -> Io, k: nat)
    requires |s.procs| == SLOTS && Pick(Wake(s, now), 0) == k < SLOTS
    ensures Tick(m, s, now, hal, t) ==
              Loop(m, Turn(Wake(s, now), k), k, REDUCTIONS, hal, Then(t, Dispatched(k)))
  {
    TickIsRun(m, s, t, now, hal, k);
  }

  // The slice of process k, in its turn.
  lemma TurnRuns(m: Stepper, s: Sys, t: Trace, k: nat, hal: nat -> Io, r: Ran)
      returns (s': Sys, st: Status, t': Trace, n: nat)
    requires Good(s, t) && k < SLOTS && s.procs[k].c.state.Ready?
    requires r == RunProcess(m, s.(current := (k + 1) % SLOTS), k, REDUCTIONS, hal, Then(t, Dispatched(k))) && r.Ran?
    ensures r == Ran(s', st, t')
    ensures Good(s', t') && s'.count == s.count && s'.current == (k + 1) % SLOTS
    ensures Continues(Then(t, Dispatched(k)), t', k, n) && n <= REDUCTIONS && OthersGrew(s, s', k)
  {
    var s2, t2 := s.(current := (k + 1) % SLOTS), Then(t, Dispatched(k));
    DispatchGood(s, t, k);
    s', st, t', n := SliceKeeps(m, s2, t2, k, hal, r);
    forall j: nat
      ensures GrewAt(s, s', k, j)
    {
      assert GrewAt(s2, s', k, j);
    }
  }

  // A tick that found a READY process.
  lemma TickRuns(m: Stepper, s: Sys, t: Trace, now: Word, hal: nat -> Io, r: Ran)
      returns (s': Sys, st: Status, t': Trace, n: nat)
    requires Good(s, t) && Pick(Wake(s, now), 0) < SLOTS && r == Tick(m, s, now, hal, t) && r.Ran?
    ensures r == Ran(s', st, t') && Good(s', t') && TickOf(s, t, now, s', t', Pick(Wake(s, now), 0), n)
  {
    WakeGood(s, t, now);
    var s1 := Wake(s, now);
    var k := Pick(s1, 0);
    TickIsRun(m, s, t, now, hal, k);
    s', st, t', n := TurnRuns(m, s1, t, k, hal, r);
  }

  // A tick with no READY process only wakes sleepers.
  lemma TickKeeps(m: Stepper, s: Sys, t: Trace, now: Word, hal: nat -> Io)
      returns (s': Sys, st: Status, t': Trace, n: nat)
    requires Good(s, t) && Tick(m, s, now, hal, t).Ran?
    ensures Tick(m, s, now, hal, t) == Ran(s', st, t') && Good(s', t')
    ensures var k := Pick(Wake(s, now), 0);
            if k == SLOTS then s' == Wake(s, now) && st.SchedIdle? && t' == t
            else TickOf(s, t, now, s', t', k, n)
  {
    if Pick(Wake(s, now), 0) < SLOTS {
      s', st, t', n := TickRuns(m, s, t, now, hal, Tick(m, s, now, hal, t));
    } else {
      WakeGood(s, t, now);
      s', st, t', n := Wake(s, now), SchedIdle, t, 0;
    }
  }

  lemma SpawnPicks(s: Sys)
    requires Inv(s)
    ensures FirstFree(s, 0) == s.count
  {
    forall j: nat | j < SLOTS
      ensures s.procs[j].c.state.Free? <==> j >= s.count
    {
      assert InvAt(s, j);
    }
  }

  // Spawning takes the next slot, or fails on a full table.
  lemma SpawnKeeps(s: Sys, t: Trace, program: seq<Byte>)
    requires Good(s, t)
    ensures var (s', pid) := SpawnProcess(s, program);
            && Good(s', t) && Good(s', Then(t, Started(s.count)))
            && (s.count == SLOTS ==> s' == s && pid == 0)
            && (s.count < SLOTS ==>
                  && pid == s.count + 1 && s'.count == s.count + 1 && s'.current == s.current
                  && s'.procs == s.procs[s.count := Spawned(pid, program, |s.procs[s.count].heap.from|)])
  {
    SpawnPicks(s);
    var (s', pid) := SpawnProcess(s, program);
    var t' := Then(t, Started(s.count));
    assert EmptyRing().Contents() == [];
    forall j: nat
      ensures InvAt(s', j) && ConservedAt(s', t, j) && ConservedAt(s', t', j)
    {
      assert InvAt(s, j) && ConservedAt(s, t, j);
    }
  }

  lemma ActKeeps(m: Stepper, s: Sys, t: Trace, a: Action) returns (s': Sys, t': Trace)
    requires Good(s, t) && Act(m, s, a, t).Ran?
    ensures Act(m, s, a, t).s == s' && Act(m, s, a, t).trace == t'
    ensures Good(s', t')
  {
    s', t' := Act(m, s, a, t).s, Act(m, s, a, t).trace;
    match a
    case DoTick(now, hal) =>
      var st, n;
      s', st, t', n := TickKeeps(m, s, t, now, hal);
    case DoSpawn(program) => SpawnKeeps(s, t, program);
    case DoSend(pid, cmd) =>
      PostKeeps(s, pid, cmd);
      var st := Post(s, pid, cmd).1;
      PostGood(s, t, pid, cmd, if st.Ok? then Posted(pid - 1, cmd) else Refused(pid, st));
  }

  // Every history keeps the invariant and conserves mail.
  lemma {:induction false} HistoryKeeps(m: Stepper, s: Sys, t: Trace, acts: seq<Action>) returns (s': Sys, t': Trace)
    requires Good(s, t) && Perform(m, s, acts, t).Ran?
    ensures Perform(m, s, acts, t).s == s' && Perform(m, s, acts, t).trace == t'
    ensures Good(s', t')
    decreases |acts|
  {
    if acts == [] {
      s', t' := s, t;
    } else {
      var s1, t1 := ActKeeps(m, s, t, acts[0]);
      s', t' := HistoryKeeps(m, s1, t1, acts[1..]);
    }
  }

  // A history from its first action.
  lemma PerformFirst(m: Stepper, s: Sys, acts: seq<Action>, t: Trace, s1: Sys, st: Status, t1: Trace, r: Ran)
    requires |s.procs| == SLOTS && acts != [] && Act(m, s, acts[0], t) == Ran(s1, st, t1) && |s1.procs| == SLOTS
    requires r == Perform(m, s1, acts[1..], t1) && r.Ran?
    ensures var h := Perform(m, s, acts, t); h.Ran? && h.s == r.s && h.trace == r.trace
  {
  }

  lemma PerformOnly(m: Stepper, s: Sys, acts: seq<Action>, t: Trace, r: Ran)
    requires |s.procs| == SLOTS && |acts| == 1 && Act(m, s, acts[0], t) == r && r.Ran?
    ensures var h := Perform(m, s, acts, t); h.Ran? && h.s == r.s && h.trace == r.trace
  {
    PerformFirst(m, s, acts, t, r.s, r.status, r.trace, Ran(r.s, Ok, r.trace));
  }

  lemma PerformWell(m: Stepper, s: Sys, acts: seq<Action>, t: Trace, r: Ran)
    requires |s.procs| == SLOTS && acts != [] && Perform(m, s, acts, t).Ran? && Perform(m, s, acts, t).status.Ok?
    requires r == Act(m, s, acts[0], t)
    ensures r.Ran? && |r.s.procs| == SLOTS && (r.status.Ok? || r.status.SchedIdle?)
  {
  }

  lemma PerformSecond(m: Stepper, s: Sys, acts: seq<Action>, t: Trace, r: Ran)
    requires |s.procs| == SLOTS && acts != [] && r == Act(m, s, acts[0], t)
    requires r.Ran? && |r.s.procs| == SLOTS && (r.status.Ok? || r.status.SchedIdle?)
    ensures Perform(m, s, acts, t) == Perform(m, r.s, acts[1..], r.trace)
  {
  }

  // A history after a history that went well.
  lemma {:induction false} PerformJoin(m: Stepper, s: Sys, a: seq<Action>, b: seq<Action>, t: Trace)
    requires |s.procs| == SLOTS && Perform(m, s, a, t).Ran? && Perform(m, s, a, t).status.Ok?
    ensures var r := Perform(m, s, a, t); Perform(m, s, a + b, t) == Perform(m, r.s, b, r.trace)
    decreases |a|
  {
    if a == [] {
      assert a + b == b;
    } else {
      assert (a + b)[0] == a[0] && (a + b)[1..] == a[1..] + b;
      var r := Act(m, s, a[0], t);
      PerformWell(m, s, a, t, r);
      PerformSecond(m, s, a, t, r);
      PerformSecond(m, s, a + b, t, r);
      PerformJoin(m, r.s, a[1..], b, r.trace);
    }
  }

  lemma InitialGood(capacity: nat)
    requires capacity <= MAX_SPACE
    ensures Good(Initial(capacity), Start)
  {
    var s := Initial(capacity);
    assert EmptyRing().Contents() == [];
    forall j: nat
      ensures InvAt(s, j) && ConservedAt(s, Start, j)
    {
    }
  }

  // In every reachable state, for every process, the accepted commands are
  // the received ones followed by the queued ones, in order.
  lemma MailIsFifo(m: Stepper, capacity: nat, acts: seq<Action>, j: nat)
    requires capacity <= MAX_SPACE && j < SLOTS && Perform(m, Initial(capacity), acts, Start).Ran?
    ensures var r := Perform(m, Initial(capacity), acts, Start);
            && r.s.procs[j].c.mailbox.Valid()
            && AcceptedBy(r.trace, j) == ReceivedBy(r.trace, j) + r.s.procs[j].c.mailbox.Contents()
            && |r.s.procs[j].c.mailbox.Contents()| <= CAPACITY
  {
    InitialGood(capacity);
    var s, t := HistoryKeeps(m, Initial(capacity), Start, acts);
    assert InvAt(s, j) && ConservedAt(s, t, j);
  }

  // In every reachable state a WAITING process stands at a RECV_CMD with no
  // mail: one that has mail to receive is not asleep on it.
  lemma NoLostWakeUp(m: Stepper, capacity: nat, acts: seq<Action>, j: nat)
    requires capacity <= MAX_SPACE && j < SLOTS && Perform(m, Initial(capacity), acts, Start).Ran?
    ensures var p := Perform(m, Initial(capacity), acts, Start).s.procs[j];
            && p.c.mailbox.Valid()
            && (p.c.state.Waiting? ==> AtReceive(p.c) && p.c.mailbox.Contents() == [])
  {
    InitialGood(capacity);
    var s, t := HistoryKeeps(m, Initial(capacity), Start, acts);
    assert InvAt(s, j);
  }

  // In every reachable state the used slots are the first count ones, slot j
  // holds the process with PID j + 1, and HALTED agrees with halted.
  lemma TableInOrder(m: Stepper, capacity: nat, acts: seq<Action>, j: nat)
    requires capacity <= MAX_SPACE && j < SLOTS && Perform(m, Initial(capacity), acts, Start).Ran?
    ensures var s := Perform(m, Initial(capacity), acts, Start).s;
            && s.current < SLOTS && s.count <= SLOTS
            && (!s.procs[j].c.state.Free? <==> j < s.count)
            && (j < s.count ==> s.procs[j].c.pid == j + 1 && Lookup(s, j + 1) == j)
            && (s.procs[j].c.halted <==> s.procs[j].c.state.Halted?)
  {
    InitialGood(capacity);
    var s, t := HistoryKeeps(m, Initial(capacity), Start, acts);
    assert InvAt(s, j);
  }

  // ---- what a message carries ----

  // In every reachable state RECV_CMD blocks on an empty mailbox, and delivers
  // the oldest command otherwise: the branch for an invalid command is dead.
  lemma ReceivedMailIsValid(m: Stepper, capacity: nat, acts: seq<Action>, j: nat, at: nat, i: Instr)
    requires capacity <= MAX_SPACE && j < SLOTS && Perform(m, Initial(capacity), acts, Start).Ran? && i.RecvCmd?
    ensures var c := Perform(m, Initial(capacity), acts, Start).s.procs[j].c;
            && c.mailbox.Valid()
            && var q, e := c.mailbox.Contents(), Machine.Receive(c, at, i);
               if q == [] then e == Done(c.(pc := at, state := Waiting), [])
               else
                 && e.writes == TagCommand(i, q[0].kind, q[0].a, q[0].b, q[0].c, q[0].d)
                 && e.c == c.(mailbox := e.c.mailbox, lastError := Ok)
                 && e.c.mailbox.Valid() && e.c.mailbox.Contents() == q[1..]
  {
    NoLostWakeUp(m, capacity, acts, j);
    PopTakesOldest(Perform(m, Initial(capacity), acts, Start).s.procs[j].c.mailbox);
  }
}
