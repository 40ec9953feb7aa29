// What the round-robin scheduler promises over time: fairness, bounded
// delivery, sleeping until the deadline and not beyond, and rest after HALT.
module Progress {
  import opened Term
  import opened Commands
  import opened Mailbox
  import opened Bytecode
  import opened Machine
  import opened System
  import opened Scheduling

  // ---- what a trace remembers ----

  function Dispatches(t: Trace, j: nat): nat {
    match t
    case Start => 0
    case Then(before, ev) => Dispatches(before, j) + if ev == Dispatched(j) then 1 else 0
  }

  function Executed(t: Trace): nat {
    match t
    case Start => 0
    case Then(before, ev) => Executed(before) + if ev.Plain? || ev.Received? || ev.Sent? || ev.Bounced? then 1 else 0
  }

  // A slice of another process leaves no event of j, and n instructions.
  lemma {:induction false} OthersSlice(t: Trace, t': Trace, k: nat, n: nat, j: nat)
    requires Continues(t, t', k, n)
    ensures Executed(t') == Executed(t) + n
    ensures Dispatches(t', j) == Dispatches(t, j)
    ensures ReceivedBy(t, j) <= ReceivedBy(t', j)
    ensures j != k ==> ReceivedBy(t', j) == ReceivedBy(t, j)
    decreases t'
  {
    if !(t' == t && n == 0) {
      OthersSlice(t, t'.before, k, n - 1, j);
    }
  }

  // ---- an action, as process j sees it ----

  predicate Runs(s: Sys, a: Action, j: nat)
    requires |s.procs| == SLOTS
  {
    a.DoTick? && Pick(Wake(s, a.now), 0) == j
  }

  // What process j is when the others have their turn.
  function Awoken(p: Proc, a: Action): Proc { if a.DoTick? then WakeOne(p, a.now) else p }

  // What an action that does not run j leaves: j gets mail, nothing else.
  ghost predicate PassedOver(p: Proc, p': Proc, t: Trace, t': Trace, j: nat, n: nat) {
    && Grew(p, p')
    && Dispatches(t', j) == Dispatches(t, j) && ReceivedBy(t', j) == ReceivedBy(t, j)
    && Executed(t') <= Executed(t) + n
  }

  lemma TickPassesOver(m: Stepper, s: Sys, t: Trace, now: Word, hal: nat -> Io, j: nat)
      returns (s': Sys, st: Status, t': Trace)
    requires Good(s, t) && j < SLOTS && Tick(m, s, now, hal, t).Ran? && Pick(Wake(s, now), 0) != j
    ensures Tick(m, s, now, hal, t) == Ran(s', st, t') && Good(s', t')
    ensures PassedOver(WakeOne(s.procs[j], now), s'.procs[j], t, t', j, REDUCTIONS)
    ensures var k := Pick(Wake(s, now), 0); s'.current == if k == SLOTS then s.current else (k + 1) % SLOTS
  {
    var n;
    s', st, t', n := TickKeeps(m, s, t, now, hal);
    var k := Pick(Wake(s, now), 0);
    assert InvAt(s, j);
    if k < SLOTS {
      assert GrewAt(Wake(s, now), s', k, j);
      OthersSlice(Then(t, Dispatched(k)), t', k, n, j);
    }
  }

  lemma PostPassesOver(s: Sys, t: Trace, pid: nat, cmd: Command, j: nat)
    requires Good(s, t) && j < SLOTS
    ensures var (s', st) := Post(s, pid, cmd);
            && s'.current == s.current
            && PassedOver(s.procs[j], s'.procs[j], t,
                 Then(t, if st.Ok? && pid > 0 then Posted(pid - 1, cmd) else Refused(pid, st)), j, 0)
            && (st.Ok? ==> pid > 0)
  {
    PostKeeps(s, pid, cmd);
    var (s', st) := Post(s, pid, cmd);
    assert PostedAt(s, s', pid, cmd, st.Ok?, j);
  }

  lemma SpawnPassesOver(s: Sys, t: Trace, program: seq<Byte>, j: nat)
    requires Good(s, t) && j < SLOTS && !s.procs[j].c.state.Free?
    ensures var (s', pid) := SpawnProcess(s, program);
            && s'.current == s.current
            && PassedOver(s.procs[j], s'.procs[j], t, t, j, 0)
            && (pid > 0 ==> PassedOver(s.procs[j], s'.procs[j], t, Then(t, Started(pid - 1)), j, 0))
  {
    assert InvAt(s, j);
    SpawnKeeps(s, t, program);
  }

  // A send or a spawn from outside.
  lemma OutsidePassesOver(m: Stepper, s: Sys, t: Trace, a: Action, j: nat) returns (s': Sys, t': Trace)
    requires Good(s, t) && j < SLOTS && !a.DoTick? && !s.procs[j].c.state.Free?
    ensures Act(m, s, a, t).Ran? && Act(m, s, a, t).s == s' && Act(m, s, a, t).trace == t' && Good(s', t')
    ensures PassedOver(s.procs[j], s'.procs[j], t, t', j, 0) && s'.current == s.current
  {
    s', t' := ActKeeps(m, s, t, a);
    if a.DoSpawn? {
      SpawnPassesOver(s, t, a.program, j);
    } else {
      PostPassesOver(s, t, a.pid, a.cmd, j);
    }
  }

  lemma TickActPassesOver(m: Stepper, s: Sys, t: Trace, a: Action, j: nat, r: Ran) returns (s': Sys, t': Trace)
    requires Good(s, t) && j < SLOTS && a.DoTick? && !Runs(s, a, j)
    requires r == Tick(m, s, a.now, a.hal, t) && r.Ran?
    ensures r.s == s' && r.trace == t' && Good(s', t')
    ensures PassedOver(Awoken(s.procs[j], a), s'.procs[j], t, t', j, REDUCTIONS)
    ensures var k := Pick(Wake(s, a.now), 0); s'.current == if k == SLOTS then s.current else (k + 1) % SLOTS
  {
    var st;
    s', st, t' := TickPassesOver(m, s, t, a.now, a.hal, j);
  }

  lemma ActPassesOver(m: Stepper, s: Sys, t: Trace, a: Action, j: nat) returns (s': Sys, t': Trace)
    requires Good(s, t) && j < SLOTS && Act(m, s, a, t).Ran?
    requires !Runs(s, a, j) && !s.procs[j].c.state.Free?
    ensures Act(m, s, a, t).s == s' && Act(m, s, a, t).trace == t' && Good(s', t')
    ensures PassedOver(Awoken(s.procs[j], a), s'.procs[j], t, t', j, if a.DoTick? then REDUCTIONS else 0)
    ensures var k := if a.DoTick? then Pick(Wake(s, a.now), 0) else SLOTS;
            s'.current == if k == SLOTS then s.current else (k + 1) % SLOTS
  {
    if a.DoTick? {
      s', t' := TickActPassesOver(m, s, t, a, j, Act(m, s, a, t));
    } else {
      s', t' := OutsidePassesOver(m, s, t, a, j);
    }
  }

  // ---- fairness ----

  // How many slots the scan visits before j.
  function Distance(current: nat, j: nat): nat
    requires current < SLOTS && j < SLOTS
  {
    if j >= current then j - current else j + SLOTS - current
  }

  lemma Wrap(current: nat, i: nat)
    requires current < SLOTS && i < SLOTS
    ensures (current + i) % SLOTS == if current + i < SLOTS then current + i else current + i - SLOTS
    ensures Distance(current, (current + i) % SLOTS) == i
  {
    if current + i >= SLOTS {
      assert (current + i) % SLOTS == (current + i - SLOTS) % SLOTS;
    }
  }

  lemma {:induction false} PickIsFirst(s: Sys, i: nat, j: nat)
    requires |s.procs| == SLOTS && s.current < SLOTS && j < SLOTS && s.procs[j].c.state.Ready?
    requires i <= Distance(s.current, j)
    ensures Pick(s, i) < SLOTS && Distance(s.current, Pick(s, i)) <= Distance(s.current, j)
    decreases SLOTS - i
  {
    Wrap(s.current, i);
    if !s.procs[(s.current + i) % SLOTS].c.state.Ready? {
      PickIsFirst(s, i + 1, j);
    }
  }

  function Ticks(acts: seq<Action>): nat
    decreases |acts|
  {
    if acts == [] then 0 else (if acts[0].DoTick? then 1 else 0) + Ticks(acts[1..])
  }

  // Dispatching a nearer slot brings j nearer.
  lemma Approaches(current: nat, k: nat, j: nat)
    requires current < SLOTS && k < SLOTS && j < SLOTS && k != j
    requires Distance(current, k) <= Distance(current, j)
    ensures (k + 1) % SLOTS < SLOTS && Distance((k + 1) % SLOTS, j) < Distance(current, j)
  {
    Wrap(k, 1);
  }

  // A tick that passes over a READY process brings it nearer.
  lemma TickApproaches(s: Sys, now: Word, j: nat)
    requires Inv(s) && j < SLOTS && s.procs[j].c.state.Ready?
    ensures Pick(Wake(s, now), 0) < SLOTS
    ensures var k := Pick(Wake(s, now), 0);
            k != j ==> Distance((k + 1) % SLOTS, j) < Distance(s.current, j)
  {
    var s1 := Wake(s, now);
    assert s1.procs[j] == s.procs[j];
    PickIsFirst(s1, 0, j);
    var k := Pick(s1, 0);
    if k != j {
      Approaches(s.current, k, j);
    }
  }

  lemma ActDistance(s: Sys, a: Action, j: nat, current: nat)
    requires Inv(s) && j < SLOTS && s.procs[j].c.state.Ready? && !Runs(s, a, j)
    requires var k := if a.DoTick? then Pick(Wake(s, a.now), 0) else SLOTS;
             current == if k == SLOTS then s.current else (k + 1) % SLOTS
    ensures current < SLOTS
    ensures (if a.DoTick? then 1 else 0) + Distance(current, j) <= Distance(s.current, j)
  {
    if a.DoTick? {
      TickApproaches(s, a.now, j);
    }
  }

  // One action that leaves a READY process where it is.
  lemma ActApproaches(m: Stepper, s: Sys, t: Trace, a: Action, j: nat) returns (s': Sys, t': Trace)
    requires Good(s, t) && j < SLOTS && s.procs[j].c.state.Ready? && !Runs(s, a, j) && Act(m, s, a, t).Ran?
    ensures Act(m, s, a, t).s == s' && Act(m, s, a, t).trace == t' && Good(s', t')
    ensures Grew(s.procs[j], s'.procs[j]) && s'.procs[j].c.state.Ready?
    ensures Dispatches(t', j) == Dispatches(t, j) && ReceivedBy(t', j) == ReceivedBy(t, j)
    ensures var n := if a.DoTick? then 1 else 0;
            && Executed(t') <= Executed(t) + REDUCTIONS * n
            && n + Distance(s'.current, j) <= Distance(s.current, j)
  {
    s', t' := ActPassesOver(m, s, t, a, j);
    assert Awoken(s.procs[j], a) == s.procs[j];
    ActDistance(s, a, j, s'.current);
  }

  // Until a READY process is dispatched it stays READY where it was; at most
  // 7 ticks and 7 * 64 instructions of others go by, whatever they are.
  lemma {:induction false} Fairness(m: Stepper, s: Sys, t: Trace, acts: seq<Action>, j: nat)
      returns (s': Sys, t': Trace)
    requires Good(s, t) && j < SLOTS && s.procs[j].c.state.Ready? && Perform(m, s, acts, t).Ran?
    requires Dispatches(Perform(m, s, acts, t).trace, j) == Dispatches(t, j)
    ensures Perform(m, s, acts, t).s == s' && Perform(m, s, acts, t).trace == t' && Good(s', t')
    ensures Grew(s.procs[j], s'.procs[j]) && s'.procs[j].c.state.Ready?
    ensures ReceivedBy(t', j) == ReceivedBy(t, j)
    ensures Ticks(acts) + Distance(s'.current, j) <= Distance(s.current, j) < SLOTS
    ensures Executed(t') <= Executed(t) + REDUCTIONS * Ticks(acts)
    decreases |acts|
  {
    assert InvAt(s, j);
    if acts == [] {
      s', t' := s, t;
    } else {
      PerformGrows(m, s, t, acts, j);
      var s1, t1 := ActApproaches(m, s, t, acts[0], j);
      s', t' := Fairness(m, s1, t1, acts[1..], j);
      GrewTransitive(s.procs[j], s1.procs[j], s'.procs[j]);
    }
  }

  // Traces only grow: an action that runs j shows in the trace for good.
  lemma {:induction false} PerformGrows(m: Stepper, s: Sys, t: Trace, acts: seq<Action>, j: nat)
    requires Good(s, t) && j < SLOTS && Perform(m, s, acts, t).Ran?
    ensures var r := Perform(m, s, acts, t);
            && Dispatches(t, j) <= Dispatches(r.trace, j)
            && ReceivedBy(t, j) <= ReceivedBy(r.trace, j)
            && (acts != [] && Runs(s, acts[0], j) ==> Dispatches(t, j) < Dispatches(r.trace, j))
    decreases |acts|
  {
    if acts != [] {
      var s1, t1 := ActGrows(m, s, t, acts[0], j);
      PerformGrows(m, s1, t1, acts[1..], j);
    }
  }

  lemma ActGrows(m: Stepper, s: Sys, t: Trace, a: Action, j: nat) returns (s': Sys, t': Trace)
    requires Good(s, t) && j < SLOTS && Act(m, s, a, t).Ran?
    ensures Act(m, s, a, t).s == s' && Act(m, s, a, t).trace == t' && Good(s', t')
    ensures Dispatches(t', j) == Dispatches(t, j) + if Runs(s, a, j) then 1 else 0
    ensures ReceivedBy(t, j) <= ReceivedBy(t', j)
  {
    s', t' := ActKeeps(m, s, t, a);
    if a.DoTick? {
      var s1, st, t1, n := TickKeeps(m, s, t, a.now, a.hal);
      var k := Pick(Wake(s, a.now), 0);
      if k < SLOTS {
        OthersSlice(Then(t, Dispatched(k)), t', k, n, j);
      }
    }
  }

  // A READY process is dispatched within 8 ticks.
  lemma DispatchedWithinEightTicks(m: Stepper, s: Sys, t: Trace, acts: seq<Action>, j: nat)
    requires Good(s, t) && j < SLOTS && s.procs[j].c.state.Ready? && Perform(m, s, acts, t).Ran?
    requires Ticks(acts) >= SLOTS
    ensures Dispatches(Perform(m, s, acts, t).trace, j) > Dispatches(t, j)
  {
    PerformGrows(m, s, t, acts, j);
    if Dispatches(Perform(m, s, acts, t).trace, j) == Dispatches(t, j) {
      var s', t' := Fairness(m, s, t, acts, j);
    }
  }

  // ---- bounded delivery ----

  // The process stands READY at a RECV_CMD with cmd first in its mailbox.
  ghost predicate AboutToReceive(p: Proc, cmd: Command) {
    && p.c.state.Ready? && AtReceive(p.c) && p.c.mailbox.Valid()
    && p.c.mailbox.Contents() != [] && p.c.mailbox.Contents()[0] == cmd
  }

  lemma GrewKeepsReceive(p: Proc, p': Proc, cmd: Command)
    requires AboutToReceive(p, cmd) && Grew(p, p')
    ensures AboutToReceive(p', cmd)
  {
  }

  lemma StepReceives(m: Stepper, s: Sys, j: nat, io: Io, cmd: Command)
    requires Inv(s) && j < SLOTS && AboutToReceive(s.procs[j], cmd)
    ensures StepSlot(m, s, j, io).Stepped? && StepSlot(m, s, j, io).ev == Received(j, cmd)
  {
    assert InvAt(s, j);
    assert Tame(s.procs[j], m(s.procs[j], io));
    PopTakesOldest(s.procs[j].c.mailbox);
  }

  // The first instruction of a slice takes the waiting message.
  lemma SliceReceives(m: Stepper, s: Sys, t: Trace, j: nat, hal: nat -> Io, cmd: Command, r: Ran)
    requires Good(s, t) && j < SLOTS && AboutToReceive(s.procs[j], cmd) && s.procs[j].c.reductions == 0
    requires r == Loop(m, s, j, REDUCTIONS, hal, t) && r.Ran?
    ensures ReceivedBy(t, j) + [cmd] <= ReceivedBy(r.trace, j)
  {
    StepReceives(m, s, j, hal(0), cmd);
    var again, s1, st1, t1 := LoopRound(m, s, t, j, REDUCTIONS, hal, r);
    if again {
      var s', st, t', n := LoopKeeps(m, s1, t1, j, REDUCTIONS, hal, r);
      OthersSlice(t1, t', j, n, j);
    }
  }

  lemma DispatchedReceives(s: Sys, t: Trace, now: Word, j: nat, cmd: Command)
    requires Good(s, t) && j < SLOTS && AboutToReceive(s.procs[j], cmd)
    ensures var s' := Turn(Wake(s, now), j);
            Good(s', Then(t, Dispatched(j))) && AboutToReceive(s'.procs[j], cmd) && s'.procs[j].c.reductions == 0
  {
    WakeGood(s, t, now);
    DispatchGood(Wake(s, now), t, j);
    BudgetKeeps(Wake(s, now).(current := (j + 1) % SLOTS), Then(t, Dispatched(j)), j, 0);
  }

  lemma TickReceives(m: Stepper, s: Sys, t: Trace, now: Word, hal: nat -> Io, j: nat, cmd: Command)
    requires Good(s, t) && j < SLOTS && AboutToReceive(s.procs[j], cmd)
    requires Pick(Wake(s, now), 0) == j && Tick(m, s, now, hal, t).Ran?
    ensures ReceivedBy(t, j) + [cmd] <= ReceivedBy(Tick(m, s, now, hal, t).trace, j)
  {
    TickIsLoop(m, s, t, now, hal, j);
    DispatchedReceives(s, t, now, j, cmd);
    SliceReceives(m, Turn(Wake(s, now), j), Then(t, Dispatched(j)), j, hal, cmd, Tick(m, s, now, hal, t));
  }

  // A message at the head of the mailbox of a process that stands READY at a
  // RECV_CMD is received within 8 ticks, whatever else goes on.
  lemma {:induction false} ReceivedWithinEightTicks(m: Stepper, s: Sys, t: Trace, acts: seq<Action>, j: nat,
      cmd: Command)
    requires Good(s, t) && j < SLOTS && AboutToReceive(s.procs[j], cmd) && Perform(m, s, acts, t).Ran?
    requires Ticks(acts) > Distance(s.current, j)
    ensures ReceivedBy(t, j) + [cmd] <= ReceivedBy(Perform(m, s, acts, t).trace, j)
    decreases |acts|
  {
    assert InvAt(s, j);
    var a := acts[0];
    if Runs(s, a, j) {
      TickReceives(m, s, t, a.now, a.hal, j, cmd);
      var s1, t1 := ActKeeps(m, s, t, a);
      PerformGrows(m, s1, t1, acts[1..], j);
    } else {
      var s1, t1 := ActApproaches(m, s, t, a, j);
      GrewKeepsReceive(s.procs[j], s1.procs[j], cmd);
      ReceivedWithinEightTicks(m, s1, t1, acts[1..], j, cmd);
    }
  }

  // A message accepted for a WAITING process, by whatever action, is taken by
  // its blocked RECV_CMD within 8 further ticks.
  lemma BoundedDelivery(m: Stepper, s: Sys, t: Trace, a: Action, acts: seq<Action>, j: nat)
    requires Good(s, t) && j < SLOTS && s.procs[j].c.state.Waiting? && Act(m, s, a, t).Ran?
    requires var r := Act(m, s, a, t);
             && AcceptedBy(r.trace, j) != AcceptedBy(t, j)
             && Perform(m, r.s, acts, r.trace).Ran?
    requires Ticks(acts) >= SLOTS
    ensures var r := Act(m, s, a, t);
            && |AcceptedBy(r.trace, j)| > |AcceptedBy(t, j)|
            && ReceivedBy(t, j) + [AcceptedBy(r.trace, j)[|AcceptedBy(t, j)|]]
                 <= ReceivedBy(Perform(m, r.s, acts, r.trace).trace, j)
  {
    assert InvAt(s, j) && ConservedAt(s, t, j);
    assert Wake(s, if a.DoTick? then a.now else 0).procs[j] == s.procs[j];
    var s1, t1 := ActPassesOver(m, s, t, a, j);
    assert InvAt(s1, j) && ConservedAt(s1, t1, j);
    assert s1.count >= s.count by { CountGrows(m, s, t, a); }
    var q := s1.procs[j].c.mailbox.Contents();
    assert AboutToReceive(s1.procs[j], q[0]);
    ReceivedWithinEightTicks(m, s1, t1, acts, j, q[0]);
  }

  lemma CountGrows(m: Stepper, s: Sys, t: Trace, a: Action)
    requires Good(s, t) && Act(m, s, a, t).Ran?
    ensures Act(m, s, a, t).s.count >= s.count
  {
    match a
    case DoTick(now, hal) => var s', st, t', n := TickKeeps(m, s, t, now, hal);
    case DoSpawn(program) => SpawnKeeps(s, t, program);
    case DoSend(pid, cmd) => PostKeeps(s, pid, cmd);
  }

  // ---- resting processes ----

  ghost predicate NoTickReaches(acts: seq<Action>, deadline: Word) {
    forall i :: 0 <= i < |acts| && acts[i].DoTick? ==> acts[i].now < deadline
  }

  // HALTED for good, or SLEEPING with every tick before the deadline.
  ghost predicate Rests(p: Proc, acts: seq<Action>) {
    p.c.state.Halted? || (p.c.state.Sleeping? && NoTickReaches(acts, p.c.sleepUntil))
  }

  // A resting process is never dispatched; only its mailbox may grow.
  lemma {:induction false} RestingStays(m: Stepper, s: Sys, t: Trace, acts: seq<Action>, j: nat)
      returns (s': Sys, t': Trace)
    requires Good(s, t) && j < SLOTS && Rests(s.procs[j], acts) && Perform(m, s, acts, t).Ran?
    ensures Perform(m, s, acts, t).s == s' && Perform(m, s, acts, t).trace == t' && Good(s', t')
    ensures Grew(s.procs[j], s'.procs[j]) && s'.procs[j].c.state == s.procs[j].c.state
    ensures Dispatches(t', j) == Dispatches(t, j) && ReceivedBy(t', j) == ReceivedBy(t, j)
    decreases |acts|
  {
    assert InvAt(s, j);
    if acts == [] {
      s', t' := s, t;
    } else {
      assert acts[0].DoTick? ==> Wake(s, acts[0].now).procs[j] == s.procs[j];
      var s1, t1 := ActPassesOver(m, s, t, acts[0], j);
      assert Rests(s1.procs[j], acts[1..]);
      s', t' := RestingStays(m, s1, t1, acts[1..], j);
      GrewTransitive(s.procs[j], s1.procs[j], s'.procs[j]);
    }
  }

  // The first tick at or after the deadline makes a sleeper READY: it runs in
  // that tick, or stands READY after it.
  lemma SleeperWakes(m: Stepper, s: Sys, t: Trace, now: Word, hal: nat -> Io, j: nat)
    requires Good(s, t) && j < SLOTS && s.procs[j].c.state.Sleeping? && Tick(m, s, now, hal, t).Ran?
    requires now >= s.procs[j].c.sleepUntil
    ensures Wake(s, now).procs[j] == s.procs[j].(c := s.procs[j].c.(state := Ready))
    ensures Pick(Wake(s, now), 0) == j || Tick(m, s, now, hal, t).s.procs[j].c.state.Ready?
  {
    if Pick(Wake(s, now), 0) != j {
      var s', st, t' := TickPassesOver(m, s, t, now, hal, j);
    }
  }

  // ---- isolation ----

  // A tick changes a process it does not run only by waking it, and by
  // appending the commands accepted for it, each of them valid.
  lemma TickIsolates(m: Stepper, s: Sys, t: Trace, now: Word, hal: nat -> Io, j: nat)
    requires Good(s, t) && j < SLOTS && Tick(m, s, now, hal, t).Ran? && Pick(Wake(s, now), 0) != j
    ensures var r := Tick(m, s, now, hal, t);
            var p, p' := WakeOne(s.procs[j], now), r.s.procs[j];
            && p' == p.(c := p.c.(state := p'.c.state, mailbox := p'.c.mailbox))
            && (p'.c.state == p.c.state || (p.c.state.Waiting? && p'.c.state.Ready?))
            && p.c.mailbox.Valid() && p'.c.mailbox.Valid()
            && exists d ::
                 && AcceptedBy(r.trace, j) == AcceptedBy(t, j) + d
                 && p'.c.mailbox.Contents() == p.c.mailbox.Contents() + d
  {
    var s', st, t' := TickPassesOver(m, s, t, now, hal, j);
    MailAdded(s, t, s', t', j);
  }

  lemma MailAdded(s: Sys, t: Trace, s': Sys, t': Trace, j: nat)
    requires Good(s, t) && Good(s', t') && j < SLOTS && ReceivedBy(t', j) == ReceivedBy(t, j)
    requires s.procs[j].c.mailbox.Valid() && s'.procs[j].c.mailbox.Valid()
    requires s.procs[j].c.mailbox.Contents() <= s'.procs[j].c.mailbox.Contents()
    ensures exists d ::
              && AcceptedBy(t', j) == AcceptedBy(t, j) + d
              && s'.procs[j].c.mailbox.Contents() == s.procs[j].c.mailbox.Contents() + d
  {
    assert ConservedAt(s, t, j) && ConservedAt(s', t', j);
    var q, q' := s.procs[j].c.mailbox.Contents(), s'.procs[j].c.mailbox.Contents();
    Appended(ReceivedBy(t, j), q, q');
  }

  lemma Appended(r: seq<Command>, q: seq<Command>, q': seq<Command>)
    requires q <= q'
    ensures q' == q + q'[|q|..]
    ensures r + q' == r + q + q'[|q|..]
  {
  }
}
