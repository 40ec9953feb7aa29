// A compiled flow under the scheduler, instruction by instruction: what every
// step keeps, whatever the hardware answers and whoever else sends commands.
module FlowRuns {
  import opened Term
  import opened Commands
  import opened Mailbox
  import opened Bytecode
  import opened Machine
  import opened System
  import opened Scheduling
  import opened FlowCompiler
  import opened FlowProcesses
  import opened FlowTraces

  // A flow that passes validation and fits the process table.
  predicate Runnable(f: Flow) {
    ValidFlow(f) && f.flows != [] && 1 <= |f.sensors| <= SLOTS - 1
  }

  function Channel(f: Flow): int
    requires f.flows != [] && f.flows[0].to.ToPwm?
  {
    f.flows[0].to.channel
  }

  lemma ChannelInRange(f: Flow)
    requires Runnable(f)
    ensures f.flows[0].to.ToPwm? && 0 <= Channel(f) <= 7
  {
    assert ValidRoute(f.flows[0], f.sensors, f.actuators);
  }

  // ---- the invariant ----

  // r3 names the actuator, process n, until the sensor is settled, and then
  // never again; what was accepted is what Delivered says.
  ghost predicate TallyAt(p: Proc, t: Trace, i: nat, n: nat) {
    && |p.regs| == REG_COUNT && Taken(t, i) == Delivered(Offers(t, i), n)
    && if Settled(Offers(t, i), n) then p.c.pc >= 24 && p.regs[3] != MakeSmallint(n + 1)
       else p.c.pc >= 24 ==> p.regs[3] == MakeSmallint(n + 1)
  }

  ghost predicate SensorAt(s: Sys, t: Trace, f: Flow, channel: int, i: nat) {
    i < |f.sensors| && i < |s.procs| ==>
      && SensorInv(s.procs[i], f.sensors[i], channel, ActuatorPid(f))
      && SentBy(t, i) <= (if Spent(s.procs[i]) then 1 else 0)
      && (Posts(t, |f.sensors|) == [] ==> TallyAt(s.procs[i], t, i, |f.sensors|))
  }

  // Between RECV_CMD and the PWM call the registers hold the last command.
  ghost predicate ActuatorAt(p: Proc, received: seq<Command>) {
    ActuatorInv(p) && (p.c.pc == 6 ==> received != [] && Holds(p.regs, received[|received| - 1]))
  }

  ghost predicate FlowInv(s: Sys, t: Trace, f: Flow) {
    && Runnable(f) && f.flows[0].to.ToPwm? && 0 <= Channel(f) <= 7
    && Good(s, t) && s.count == |f.sensors| + 1
    && (forall i: nat :: SensorAt(s, t, f, Channel(f), i))
    && ActuatorAt(s.procs[|f.sensors|], ReceivedBy(t, |f.sensors|))
    && SendsDuties(t, |f.sensors|, Channel(f))
    && |AcceptedBy(t, |f.sensors|)| <= SentByFirst(t, |f.sensors|) + |Posts(t, |f.sensors|)|
  }

  // At most one command per sensor was ever accepted; so the mailbox of the
  // actuator is never full unless it gets mail from outside.
  lemma MailboxStaysSmall(s: Sys, t: Trace, f: Flow)
    requires FlowInv(s, t, f)
    ensures forall i: nat :: i < |f.sensors| ==> SentBy(t, i) <= 1
    ensures s.procs[|f.sensors|].c.mailbox.Valid()
    ensures var n := |f.sensors|;
            |s.procs[n].c.mailbox.Contents()| <= |AcceptedBy(t, n)| <= n + |Posts(t, n)|
  {
    forall i: nat | i < |f.sensors|
      ensures SentBy(t, i) <= 1
    {
      assert SensorAt(s, t, f, Channel(f), i);
    }
    SentByFirstBound(t, |f.sensors|);
    assert ConservedAt(s, t, |f.sensors|);
  }

  // ---- the PWM calls ----

  // The commands on which the actuator p, having received r, has executed its
  // PWM call.
  function Called(p: Proc, r: seq<Command>): (c: seq<Command>)
    ensures c <= r
  {
    if p.c.pc == 6 && r != [] then r[..|r| - 1] else r
  }

  function Calls(s: Sys, t: Trace, f: Flow): seq<Command>
    requires |f.sensors| < |s.procs|
  {
    Called(s.procs[|f.sensors|], ReceivedBy(t, |f.sensors|))
  }

  ghost predicate BearableFrom(c: seq<Command>, k: nat) { forall j :: k <= j < |c| ==> Bearable(c[j]) }

  // More calls were made, and the status tells whether they all succeeded.
  ghost predicate Advances(c: seq<Command>, c': seq<Command>, st: Status) {
    c <= c' && st in {Ok, BadArgument} && (st.Ok? <==> BearableFrom(c', |c|))
  }

  // ---- one instruction ----

  // A step that neither sends nor is refused keeps what r3 names.
  ghost predicate KeepsTarget(p: Proc, p': Proc, actPid: int) {
    && |p.regs| == REG_COUNT && |p'.regs| == REG_COUNT
    && (p.c.pc >= 24 ==> p'.c.pc >= 24 && p'.regs[3] == p.regs[3])
    && (p'.c.pc >= 24 && p.c.pc < 24 ==> p'.regs[3] == MakeSmallint(actPid))
  }

  // Replacing one process and adding one event that is no SEND.
  lemma FlowOwn(s: Sys, t: Trace, f: Flow, i: nat, p: Proc, ev: Event)
    requires FlowInv(s, t, f) && i <= |f.sensors| && ev.IsInstruction(i) && !ev.Sent? && !ev.Bounced?
    requires Good(s.(procs := s.procs[i := p]), Then(t, ev))
    requires i < |f.sensors| ==>
               && SensorInv(p, f.sensors[i], Channel(f), ActuatorPid(f))
               && KeepsTarget(s.procs[i], p, ActuatorPid(f)) && !ev.Received?
    requires i == |f.sensors| ==> ActuatorAt(p, ReceivedBy(Then(t, ev), i))
    ensures FlowInv(s.(procs := s.procs[i := p]), Then(t, ev), f)
  {
    var s', t' := s.(procs := s.procs[i := p]), Then(t, ev);
    forall j: nat
      ensures SensorAt(s', t', f, Channel(f), j)
    {
      assert SensorAt(s, t, f, Channel(f), j);
      QuietEvent(t, ev, j, |f.sensors|);
    }
    SentByFirstStep(t, ev, |f.sensors|);
  }

  // The event of an instruction that leaves its mailbox alone.
  lemma QuietStep(m: Stepper, s: Sys, i: nat, io: Io, p: Proc, st: Status)
    requires |s.procs| == SLOTS && i < SLOTS && m(s.procs[i], io) == Did(p, st)
    requires p.c.mailbox == s.procs[i].c.mailbox
    ensures StepSlot(m, s, i, io) == Stepped(s.(procs := s.procs[i := p]), st, Plain(i))
  {
  }

  lemma SensorMoves(s: Sys, t: Trace, f: Flow, i: nat, io: Io)
    requires FlowInv(s, t, f) && i < |f.sensors| && s.procs[i].c.state.Ready? && s.procs[i].c.pc != 59
    ensures var r := StepSlot(Machine.Step, s, i, io);
            r.Stepped? && r.status.Ok? && r.ev == Plain(i) && FlowInv(r.s, Then(t, r.ev), f)
  {
    var p := s.procs[i];
    assert SensorAt(s, t, f, Channel(f), i);
    SensorStep(p, f.sensors[i], Channel(f), ActuatorPid(f), io);
    var p' := Machine.Step(p, io).p;
    QuietStep(Machine.Step, s, i, io, p', Ok);
    var s', ev := StepKeeps(Machine.Step, s, t, i, io);
    FlowOwn(s, t, f, i, p', ev);
  }

  // The actuator's instructions, with the PWM calls they make.
  lemma ActuatorTakes(s: Sys, t: Trace, f: Flow, io: Io)
    requires FlowInv(s, t, f) && s.procs[|f.sensors|].c.state.Ready? && s.procs[|f.sensors|].c.pc == 0
    ensures var r := StepSlot(Machine.Step, s, |f.sensors|, io);
            && r.Stepped? && r.status.Ok? && FlowInv(r.s, Then(t, r.ev), f)
            && Calls(r.s, Then(t, r.ev), f) == Calls(s, t, f)
  {
    var n := |f.sensors|;
    var p := s.procs[n];
    ActuatorReceives(p, io);
    var s', ev := StepKeeps(Machine.Step, s, t, n, io);
    var p' := Machine.Step(p, io).p;
    if p.c.mailbox.Contents() != [] {
      assert RingPop(p.c.mailbox) == Popped(p'.c.mailbox, p.c.mailbox.Contents()[0]);
      OtherRing(p.c.mailbox, p'.c.mailbox);
      assert ev == Received(n, p.c.mailbox.Contents()[0]);
    }
    FlowOwn(s, t, f, n, p', ev);
  }

  lemma OtherRing(a: Ring, b: Ring)
    requires a.Valid() && b.Valid() && a.Contents() != [] && b.Contents() == a.Contents()[1..]
    ensures a != b
  {
    assert |b.Contents()| < |a.Contents()|;
  }

  // The PWM call is made on the last command received.
  lemma OneCallMore(p: Proc, p': Proc, received: seq<Command>)
    requires p.c.pc == 6 && p'.c.pc != 6 && received != []
    ensures Called(p', received) == received
    ensures Called(p, received) + [received[|received| - 1]] == received
  {
  }

  lemma ActuatorDrives(s: Sys, t: Trace, f: Flow, io: Io)
    requires FlowInv(s, t, f) && s.procs[|f.sensors|].c.state.Ready? && s.procs[|f.sensors|].c.pc == 6
    ensures var r, received := StepSlot(Machine.Step, s, |f.sensors|, io), ReceivedBy(t, |f.sensors|);
            && r.Stepped? && FlowInv(r.s, Then(t, r.ev), f)
            && Calls(r.s, Then(t, r.ev), f) == received != []
            && Calls(s, t, f) + [received[|received| - 1]] == received
            && r.status == if Bearable(received[|received| - 1]) then Ok else BadArgument
  {
    ghost var m: Stepper := Machine.Step;
    var n := |f.sensors|;
    var p := s.procs[n];
    ActuatorCalls(p, io);
    var o := m(p, io);
    QuietStep(m, s, n, io, o.p, o.status);
    ActuatorDriven(m, s, t, f, io, o.p, o.status);
  }

  lemma ActuatorDriven(m: Stepper, s: Sys, t: Trace, f: Flow, io: Io, p: Proc, st: Status)
    requires FlowInv(s, t, f) && s.procs[|f.sensors|].c.state.Ready? && s.procs[|f.sensors|].c.pc == 6
    requires StepSlot(m, s, |f.sensors|, io) == Stepped(s.(procs := s.procs[|f.sensors| := p]), st, Plain(|f.sensors|))
    requires ActuatorInv(p) && p.c.pc == 12
    ensures FlowInv(s.(procs := s.procs[|f.sensors| := p]), Then(t, Plain(|f.sensors|)), f)
    ensures var received := ReceivedBy(t, |f.sensors|);
            && received != [] && Holds(s.procs[|f.sensors|].regs, received[|received| - 1])
            && Calls(s.(procs := s.procs[|f.sensors| := p]), Then(t, Plain(|f.sensors|)), f) == received
            && Calls(s, t, f) + [received[|received| - 1]] == received
  {
    var n := |f.sensors|;
    var s', ev := StepKeeps(m, s, t, n, io);
    FlowOwn(s, t, f, n, p, ev);
    OneCallMore(s.procs[n], p, ReceivedBy(t, n));
  }

  lemma ActuatorReturns(s: Sys, t: Trace, f: Flow, io: Io)
    requires FlowInv(s, t, f) && s.procs[|f.sensors|].c.state.Ready? && s.procs[|f.sensors|].c.pc == 12
    ensures var r := StepSlot(Machine.Step, s, |f.sensors|, io);
            && r.Stepped? && r.status.Ok? && FlowInv(r.s, Then(t, r.ev), f)
            && Calls(r.s, Then(t, r.ev), f) == Calls(s, t, f)
  {
    var n := |f.sensors|;
    var p := s.procs[n];
    ActuatorJumps(p, io);
    QuietStep(Machine.Step, s, n, io, Machine.Step(p, io).p, Ok);
    var s', ev := StepKeeps(Machine.Step, s, t, n, io);
    FlowOwn(s, t, f, n, Machine.Step(p, io).p, ev);
  }

  // ---- SEND ----

  // Where a sensor's SEND goes: to the actuator, or nowhere.
  lemma SendFinds(s: Sys, t: Trace, f: Flow, pid: int)
    requires FlowInv(s, t, f) && pid in {ActuatorPid(f), 0, 8, 9, 11}
    ensures Lookup(s, pid) == |f.sensors| || Lookup(s, pid) == SLOTS
    ensures Lookup(s, pid) == |f.sensors| <==> pid == ActuatorPid(f)
    ensures pid in {0, 9, 11} ==> Lookup(s, pid) == SLOTS
  {
    assert InvAt(s, |f.sensors|) && InvAt(s, 7);
  }

  ghost predicate OthersKeep(s: Sys, s1: Sys, n: nat) {
    forall j: nat :: j < |s.procs| && j < |s1.procs| && j != n ==> s1.procs[j] == s.procs[j]
  }

  // What the actuator says to a duty for the channel.
  function DutyStatus(p: Proc, duty: int): Status {
    if !ValidPwmDuty(duty) then BadArgument else if p.c.mailbox.count >= CAPACITY then MailboxFull else Ok
  }

  lemma DutyAccepted(p: Proc, channel: int, cmd: Command)
    requires ActuatorInv(p) && cmd == Command(CMD_PWM_SET_DUTY, channel, cmd.b, 0, 0) && 0 <= channel <= 7
    ensures var (c, st) := Accept(p.c, cmd);
            && st == DutyStatus(p, cmd.b) && ActuatorInv(p.(c := c)) && c.pc == p.c.pc
            && |p.c.mailbox.Contents()| == p.c.mailbox.count
  {
    PushAppends(p.c.mailbox, cmd);
  }

  // The post of a sensor's SEND: decided by the actuator, or addressed to
  // nobody.
  lemma SendPosts(s: Sys, t: Trace, f: Flow, pid: nat, cmd: Command)
    requires FlowInv(s, t, f) && pid in {ActuatorPid(f), 0, 8, 9, 11}
    requires cmd == Command(CMD_PWM_SET_DUTY, Channel(f), cmd.b, 0, 0)
    ensures var (s1, st) := Post(s, pid, cmd);
            && st == (if pid == ActuatorPid(f) then DutyStatus(s.procs[|f.sensors|], cmd.b) else BadPid)
            && OthersKeep(s, s1, |f.sensors|) && s1 == s.(procs := s1.procs)
            && s1.procs[|f.sensors|].regs == s.procs[|f.sensors|].regs
            && s1.procs[|f.sensors|].c.pc == s.procs[|f.sensors|].c.pc && ActuatorInv(s1.procs[|f.sensors|])
  {
    SendFinds(s, t, f, pid);
    DutyAccepted(s.procs[|f.sensors|], Channel(f), cmd);
  }

  function AtSend(p: Proc): Proc { p.(c := p.c.(pc := 66)) }

  function Offer(p: Proc, channel: int): Command { Command(CMD_PWM_SET_DUTY, channel, IntAt(p.regs, 7), 0, 0) }

  // A sensor's SEND: post, then put the status into r3.
  lemma SendSteps(s: Sys, t: Trace, f: Flow, i: nat, io: Io)
    requires FlowInv(s, t, f) && i < |f.sensors| && s.procs[i].c.pc == 59
    ensures var p := s.procs[i];
            && IntAt(p.regs, 3) in {ActuatorPid(f), 0, 8, 9, 11}
            && var (s1, st) := Post(s.(procs := s.procs[i := AtSend(p)]), IntAt(p.regs, 3), Offer(p, Channel(f)));
               StepSlot(Machine.Step, s, i, io) ==
                 Stepped(Reply(s1, i, 3, st), Ok,
                         if st.Ok? then Sent(i, IntAt(p.regs, 3) - 1, Offer(p, Channel(f)))
                         else Bounced(i, IntAt(p.regs, 3), Offer(p, Channel(f))))
  {
    assert SensorAt(s, t, f, Channel(f), i);
    SensorSends(s.procs[i], f.sensors[i], Channel(f), ActuatorPid(f), io);
  }

  // The sensor after its SEND: spent once a command was accepted.
  lemma SendLeavesSensor(p: Proc, s: Sensor, channel: int, actPid: int, st: Status)
    requires SensorInv(p, s, channel, actPid) && p.c.pc == 59 && st in {Ok, BadArgument, MailboxFull, BadPid}
    requires st.Ok? ==> IntAt(p.regs, 3) == actPid
    requires IntAt(p.regs, 3) in {0, 9, 11} ==> st.BadPid?
    ensures var p' := AtSend(p).(regs := WriteAll(p.regs, [Write(3, MakeSmallint(st.Code()))]));
            && SensorInv(p', s, channel, actPid)
            && (st.Ok? ==> !Spent(p) && Spent(p'))
            && (Spent(p) ==> Spent(p'))
  {
    LoadedSame(p.regs, SensorConsts(s, channel, actPid), 9, 11);
    assert SensorInv(AtSend(p), s, channel, actPid);
    SensorReplied(AtSend(p), s, channel, actPid, st);
    SmallintRoundTrip(0); SmallintRoundTrip(9); SmallintRoundTrip(11); SmallintRoundTrip(actPid);
  }

  // The actuator and the sensor after a SEND.
  lemma SendReply(s: Sys, t: Trace, f: Flow, i: nat)
    requires FlowInv(s, t, f) && i < |f.sensors| && s.procs[i].c.pc == 59
    requires IntAt(s.procs[i].regs, 3) in {ActuatorPid(f), 0, 8, 9, 11}
    ensures var p := s.procs[i];
            var (s1, st) := Post(s.(procs := s.procs[i := AtSend(p)]), IntAt(p.regs, 3), Offer(p, Channel(f)));
            var p' := AtSend(p).(regs := WriteAll(p.regs, [Write(3, MakeSmallint(st.Code()))]));
            && Reply(s1, i, 3, st) == s.(procs := s.procs[i := p'][|f.sensors| := s1.procs[|f.sensors|]])
            && SensorInv(p', f.sensors[i], Channel(f), ActuatorPid(f))
            && (st.Ok? ==> !Spent(p) && Spent(p') && IntAt(p.regs, 3) == ActuatorPid(f))
            && (Spent(p) ==> Spent(p'))
            && st == (if IntAt(p.regs, 3) == ActuatorPid(f)
                      then DutyStatus(s.procs[|f.sensors|], IntAt(p.regs, 7)) else BadPid)
            && ActuatorAt(s1.procs[|f.sensors|], ReceivedBy(t, |f.sensors|))
            && s1.procs[|f.sensors|].c.pc == s.procs[|f.sensors|].c.pc
  {
    var p, n := s.procs[i], |f.sensors|;
    assert SensorAt(s, t, f, Channel(f), i);
    var s0 := s.(procs := s.procs[i := AtSend(p)]);
    SameTargets(s, s0, i);
    SendFinds(s, t, f, IntAt(p.regs, 3));
    SendPosts(s, t, f, IntAt(p.regs, 3), Offer(p, Channel(f)));
    PostElsewhere(s, s0, i, n, IntAt(p.regs, 3), Offer(p, Channel(f)));
    var (s1, st) := Post(s0, IntAt(p.regs, 3), Offer(p, Channel(f)));
    SendLeavesSensor(p, f.sensors[i], Channel(f), ActuatorPid(f), st);
    var r := Reply(s1, i, 3, st);
    assert s1.procs == s0.procs[n := s1.procs[n]];
  }

  lemma SameTargets(s: Sys, s0: Sys, i: nat)
    requires |s.procs| == SLOTS == |s0.procs| && i < SLOTS && s0 == s.(procs := s.procs[i := s0.procs[i]])
    requires s0.procs[i].c.state == s.procs[i].c.state
    ensures forall pid: nat :: Lookup(s0, pid) == Lookup(s, pid)
  {
  }

  // A post to slot n, or to nobody, does not depend on slot i.
  lemma PostElsewhere(s: Sys, s0: Sys, i: nat, n: nat, pid: nat, cmd: Command)
    requires |s.procs| == SLOTS && |s0.procs| == SLOTS && i < SLOTS && n < SLOTS && i != n
    requires s0 == s.(procs := s.procs[i := s0.procs[i]])
    requires Lookup(s0, pid) == Lookup(s, pid) && (Lookup(s, pid) == n || Lookup(s, pid) == SLOTS)
    ensures Post(s0, pid, cmd).1 == Post(s, pid, cmd).1 && |Post(s0, pid, cmd).0.procs| == SLOTS
    ensures Post(s0, pid, cmd).0 == s0.(procs := Post(s0, pid, cmd).0.procs)
    ensures Post(s0, pid, cmd).0.procs[n] == Post(s, pid, cmd).0.procs[n]
    ensures forall j: nat :: j < SLOTS && j != n ==> Post(s0, pid, cmd).0.procs[j] == s0.procs[j]
  {
  }

  // A SEND is accepted exactly when r3 still names the actuator, the reading
  // in r7 is a duty in range and the actuator's mailbox has room; without
  // mail from outside it always has.
  lemma SendIsAccepted(s: Sys, t: Trace, f: Flow, i: nat, io: Io)
    requires FlowInv(s, t, f) && i < |f.sensors| && s.procs[i].c.pc == 59
    ensures var r, p, mb := StepSlot(Machine.Step, s, i, io), s.procs[i], s.procs[|f.sensors|].c.mailbox;
            && r.Stepped? && mb.Valid()
            && (r.ev.Sent? <==>
                  IntAt(p.regs, 3) == ActuatorPid(f) && ValidPwmDuty(IntAt(p.regs, 7)) && |mb.Contents()| < CAPACITY)
            && (Posts(t, |f.sensors|) == [] ==> |mb.Contents()| < CAPACITY)
            && (r.ev.Sent? ==> r.ev == Sent(i, |f.sensors|, Offer(p, Channel(f))))
            && (!r.ev.Sent? ==> r.ev.Bounced? && r.ev.slot == i && r.ev.cmd == Offer(p, Channel(f)))
  {
    var p := s.procs[i];
    SendSteps(s, t, f, i, io);
    MailboxStaysSmall(s, t, f);
    var s0 := s.(procs := s.procs[i := AtSend(p)]);
    SameTargets(s, s0, i);
    SendFinds(s, t, f, IntAt(p.regs, 3));
    SendPosts(s, t, f, IntAt(p.regs, 3), Offer(p, Channel(f)));
    PostElsewhere(s, s0, i, |f.sensors|, IntAt(p.regs, 3), Offer(p, Channel(f)));
  }

  // The sensor's tally after a SEND that offered v.
  lemma TallySend(p: Proc, p': Proc, t: Trace, ev: Event, i: nat, n: nat, v: int, st: Status)
    requires TallyAt(p, t, i, n) && p.c.pc >= 24 && 1 <= n <= 7 && SendTarget(p.regs[3], n + 1)
    requires (ev.Sent? || ev.Bounced?) && ev.slot == i && ev.cmd.b == v
    requires ev.Sent? <==> IntAt(p.regs, 3) == n + 1 && ValidPwmDuty(v)
    requires ev.Sent? ==> st.Ok?
    requires !ev.Sent? ==> st == if IntAt(p.regs, 3) == n + 1 then BadArgument else BadPid
    requires p'.c.pc >= 24 && |p'.regs| == REG_COUNT && p'.regs[3] == MakeSmallint(st.Code())
    ensures TallyAt(p', Then(t, ev), i, n)
  {
    OneMoreOffer(Offers(t, i), n, v);
    SmallintRoundTrip(n + 1);
    SmallintRoundTrip(0); SmallintRoundTrip(8); SmallintRoundTrip(9); SmallintRoundTrip(11);
  }

  // Sensor i becomes p and the actuator q, with the event of the SEND.
  lemma SentKeeps(s: Sys, t: Trace, f: Flow, i: nat, p: Proc, q: Proc, ev: Event)
    requires FlowInv(s, t, f) && i < |f.sensors|
    requires Good(s.(procs := s.procs[i := p][|f.sensors| := q]), Then(t, ev))
    requires SensorInv(p, f.sensors[i], Channel(f), ActuatorPid(f)) && ActuatorAt(q, ReceivedBy(t, |f.sensors|))
    requires Spent(s.procs[i]) ==> Spent(p)
    requires (ev.Sent? || ev.Bounced?) && ev.slot == i
    requires ev.Sent? ==> ev.receiver == |f.sensors| && IsDuty(ev.cmd, Channel(f)) && !Spent(s.procs[i]) && Spent(p)
    requires Posts(t, |f.sensors|) == [] ==> TallyAt(p, Then(t, ev), i, |f.sensors|)
    ensures FlowInv(s.(procs := s.procs[i := p][|f.sensors| := q]), Then(t, ev), f)
  {
    var s', t' := s.(procs := s.procs[i := p][|f.sensors| := q]), Then(t, ev);
    forall j: nat
      ensures SensorAt(s', t', f, Channel(f), j)
    {
      assert SensorAt(s, t, f, Channel(f), j);
      if j != i {
        QuietEvent(t, ev, j, |f.sensors|);
      }
    }
    SentByFirstStep(t, ev, |f.sensors|);
  }

  // What a SEND makes of the sensor (p) and the actuator (q).
  lemma SendOutcome(s: Sys, t: Trace, f: Flow, i: nat, io: Io) returns (p: Proc, q: Proc, ev: Event, st: Status)
    requires FlowInv(s, t, f) && i < |f.sensors| && s.procs[i].c.pc == 59
    ensures StepSlot(Machine.Step, s, i, io) == Stepped(s.(procs := s.procs[i := p][|f.sensors| := q]), Ok, ev)
    ensures SensorInv(p, f.sensors[i], Channel(f), ActuatorPid(f)) && ActuatorAt(q, ReceivedBy(t, |f.sensors|))
    ensures q.c.pc == s.procs[|f.sensors|].c.pc
    ensures (Spent(s.procs[i]) ==> Spent(p)) && (st.Ok? ==> !Spent(s.procs[i]) && Spent(p))
    ensures p.c.pc == 66 && p.regs == s.procs[i].regs[3 := MakeSmallint(st.Code())]
    ensures st == if IntAt(s.procs[i].regs, 3) == ActuatorPid(f)
                  then DutyStatus(s.procs[|f.sensors|], IntAt(s.procs[i].regs, 7)) else BadPid
    ensures (ev.Sent? || ev.Bounced?) && ev.slot == i && (ev.Sent? <==> st.Ok?)
    ensures ev.cmd == Offer(s.procs[i], Channel(f)) && (ev.Sent? ==> ev.receiver == |f.sensors|)
  {
    SendSteps(s, t, f, i, io);
    SendReply(s, t, f, i);
    var p0 := s.procs[i];
    var (s1, st1) := Post(s.(procs := s.procs[i := AtSend(p0)]), IntAt(p0.regs, 3), Offer(p0, Channel(f)));
    WriteOne(p0.regs, 3, MakeSmallint(st1.Code()));
    st, q := st1, s1.procs[|f.sensors|];
    p := AtSend(p0).(regs := WriteAll(p0.regs, [Write(3, MakeSmallint(st1.Code()))]));
    ev := StepSlot(Machine.Step, s, i, io).ev;
  }

  lemma SensorSendsKeeps(s: Sys, t: Trace, f: Flow, i: nat, io: Io)
    requires FlowInv(s, t, f) && i < |f.sensors| && s.procs[i].c.state.Ready? && s.procs[i].c.pc == 59
    ensures var r := StepSlot(Machine.Step, s, i, io);
            && r.Stepped? && r.status.Ok? && FlowInv(r.s, Then(t, r.ev), f)
            && Calls(r.s, Then(t, r.ev), f) == Calls(s, t, f)
  {
    var p, q, ev, st := SendOutcome(s, t, f, i, io);
    var s', ev' := StepKeeps(Machine.Step, s, t, i, io);
    if Posts(t, |f.sensors|) == [] {
      SendTallies(s, t, f, i, p, ev, st);
    }
    SentKeeps(s, t, f, i, p, q, ev);
  }

  lemma SendTallies(s: Sys, t: Trace, f: Flow, i: nat, p: Proc, ev: Event, st: Status)
    requires FlowInv(s, t, f) && i < |f.sensors| && s.procs[i].c.pc == 59 && Posts(t, |f.sensors|) == []
    requires p.c.pc == 66 && |s.procs[i].regs| == REG_COUNT && p.regs == s.procs[i].regs[3 := MakeSmallint(st.Code())]
    requires st == if IntAt(s.procs[i].regs, 3) == ActuatorPid(f)
                   then DutyStatus(s.procs[|f.sensors|], IntAt(s.procs[i].regs, 7)) else BadPid
    requires (ev.Sent? || ev.Bounced?) && ev.slot == i && (ev.Sent? <==> st.Ok?)
    requires ev.cmd == Offer(s.procs[i], Channel(f))
    ensures TallyAt(p, Then(t, ev), i, |f.sensors|)
  {
    assert SensorAt(s, t, f, Channel(f), i);
    MailboxStaysSmall(s, t, f);
    TallySend(s.procs[i], p, t, ev, i, |f.sensors|, IntAt(s.procs[i].regs, 7), st);
  }

  // One instruction of a READY process keeps the invariant.  It succeeds
  // unless it is the PWM call on a command that it cannot bear.
  lemma FlowStep(s: Sys, t: Trace, f: Flow, i: nat, io: Io) returns (s': Sys, st: Status, ev: Event)
    requires FlowInv(s, t, f) && i < SLOTS && s.procs[i].c.state.Ready?
    ensures StepSlot(Machine.Step, s, i, io) == Stepped(s', st, ev) && ev.IsInstruction(i)
    ensures FlowInv(s', Then(t, ev), f) && Advances(Calls(s, t, f), Calls(s', Then(t, ev), f), st)
    ensures i == |f.sensors| && s.procs[i].c.pc == 6 ==> |Calls(s', Then(t, ev), f)| == |Calls(s, t, f)| + 1
    ensures !s.procs[i].c.halted
  {
    ghost var m: Stepper := Machine.Step;
    assert InvAt(s, i);
    if i == |f.sensors| {
      if s.procs[i].c.pc == 0 {
        ActuatorTakes(s, t, f, io);
      } else if s.procs[i].c.pc == 6 {
        ActuatorDrives(s, t, f, io);
      } else {
        ActuatorReturns(s, t, f, io);
      }
    } else if s.procs[i].c.pc == 59 {
      SensorSendsKeeps(s, t, f, i, io);
    } else {
      SensorMoves(s, t, f, i, io);
    }
    var r := StepSlot(m, s, i, io);
    s', st, ev := r.s, r.status, r.ev;
  }
}
