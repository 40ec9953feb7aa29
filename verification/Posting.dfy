// Who gets a command and who does not: the decision of mb_sched_send and of
// SEND, in numbers, for receivers in whatever state.
module Posting {
  import opened Term
  import opened Commands
  import opened Mailbox
  import opened Bytecode
  import opened Machine
  import opened System
  import opened Scheduling
  import opened Messages
  import opened Meanings

  // The ranges that each kind of command is documented to have.
  predicate Admissible(cmd: Command) {
    match cmd.kind
    case 0 => true
    case 1 => 0 <= cmd.a <= 39 && 0 <= cmd.b <= 1
    case 2 => 0 <= cmd.a <= 7 && 0 <= cmd.b <= 1000
    case 3 => 0 <= cmd.a <= 3 && 0 <= cmd.b <= 127 && 0 <= cmd.c <= 255
    case 4 => 0 <= cmd.a <= 39
    case 5 => 0 <= cmd.a <= 3 && 0 <= cmd.b <= 127 && 0 <= cmd.c <= 255 && 0 <= cmd.d <= 255
    case 6 => 0 <= cmd.a <= 7 && 1 <= cmd.b <= 40000
    case _ => false
  }

  // A valid kind with fields out of range is told apart from no kind at all.
  lemma ValidateDecides(cmd: Command)
    ensures Validate(cmd) ==
              if !(0 <= cmd.kind <= 6) then InvalidCommand else if Admissible(cmd) then Ok else BadArgument
  {
  }

  // The code that a sender gets.
  ghost function Decision(s: Sys, pid: nat, cmd: Command): Status
    requires Inv(s)
  {
    if pid < 1 || pid > s.count then BadPid
    else if !(0 <= cmd.kind <= 6) then InvalidCommand
    else if !Admissible(cmd) then BadArgument
    else if |Queue(s, pid - 1)| == 32 then MailboxFull
    else Ok
  }

  // The commands queued for process j.
  ghost function Queue(s: Sys, j: nat): seq<Command>
    requires Inv(s) && j < SLOTS
  {
    assert InvAt(s, j);
    s.procs[j].c.mailbox.Contents()
  }

  // Whoever is used gets mail, READY, WAITING, SLEEPING or HALTED, as long as
  // the command is valid and fewer than 32 are queued.
  lemma PostDecides(s: Sys, pid: nat, cmd: Command)
    requires Inv(s)
    ensures Post(s, pid, cmd).1 == Decision(s, pid, cmd) && Inv(Post(s, pid, cmd).0)
    ensures forall j: nat :: j < SLOTS ==>
              var s' := Post(s, pid, cmd).0;
              if Decision(s, pid, cmd).Ok? && j == pid - 1
              then
                && Queue(s', j) == Queue(s, j) + [cmd]
                && s'.procs[j].c.state == if s.procs[j].c.state.Waiting? then Ready else s.procs[j].c.state
              else s'.procs[j] == s.procs[j]
  {
    PostKeeps(s, pid, cmd);
    ValidateDecides(cmd);
    var k := Lookup(s, pid);
    assert InvAt(s, k) && InvAt(s, if pid > 0 then pid - 1 else 0);
    if k < SLOTS {
      PushAppends(s.procs[k].c.mailbox, cmd);
    }
    forall j: nat | j < SLOTS
      ensures PostedAt(s, Post(s, pid, cmd).0, pid, cmd, Post(s, pid, cmd).1.Ok?, j)
      ensures InvAt(s, j) && InvAt(Post(s, pid, cmd).0, j)
    {
    }
  }

  // ---- SEND ----

  // The process SEND addresses: the low 8 bits of what its first register
  // shows.
  function Addressee(regs: seq<Word>, i: Instr): nat
    requires i.Send?
  {
    IntAt(regs, i.rPid) % 256
  }

  function Message(regs: seq<Word>, i: Instr): Command
    requires i.Send?
  {
    Command(IntAt(regs, i.rType), IntAt(regs, i.rA), IntAt(regs, i.rB), IntAt(regs, i.rC), IntAt(regs, i.rD))
  }

  // The smallint SEND leaves in the register that held the PID: 0 accepted, 7
  // no such kind, 8 out of range, 9 mailbox full, 11 no such process.
  function ReplyOf(s: Status): Word
    requires s in {Ok, InvalidCommand, BadArgument, MailboxFull, BadPid}
  {
    match s
    case Ok => 0 * 16 + 15
    case InvalidCommand => 7 * 16 + 15
    case BadArgument => 8 * 16 + 15
    case MailboxFull => 9 * 16 + 15
    case _ => 11 * 16 + 15
  }

  // A SEND always succeeds as an instruction.  Its sender moves on with the
  // reply, every other register as it was; the addressee gets the command as
  // a post would give it, be it another process or the sender itself.
  lemma SendReplies(s: Sys, j: nat, i: Instr, io: Io)
    requires Inv(s) && j < SLOTS && s.procs[j].c.state.Ready? && Stands(s.procs[j], i) && i.Send?
    ensures var r, p := StepSlot(Machine.Step, s, j, io), s.procs[j];
            var pid, cmd := Addressee(p.regs, i), Message(p.regs, i);
            var st := Decision(s, pid, cmd);
            && r.Stepped? && r.status.Ok? && Inv(r.s)
            && r.ev == (if st.Ok? then Sent(j, pid - 1, cmd) else Bounced(j, pid, cmd))
            && r.s.procs[j].c.pc == After(p) && r.s.procs[j].heap == p.heap
            && r.s.procs[j].regs == p.regs[i.rPid := ReplyOf(st)]
            && forall k: nat :: k < SLOTS ==>
                 && (k != j ==> r.s.procs[k].regs == s.procs[k].regs && r.s.procs[k].heap == s.procs[k].heap)
                 && Queue(r.s, k) == Queue(s, k) + if st.Ok? && k == pid - 1 then [cmd] else []
  {
    ghost var m: Stepper := Machine.Step;
    var p := s.procs[j];
    var pid, cmd := Addressee(p.regs, i), Message(p.regs, i);
    var p1 := p.(c := p.c.(pc := After(p)));
    assert m(p, io) == Sends(p1, i.rPid, pid, cmd);
    SendStep(m, s, j, io, p1, i.rPid, pid, cmd);
  }

  lemma SendStep(m: Stepper, s: Sys, j: nat, io: Io, p1: Proc, rPid: nat, pid: nat, cmd: Command)
    requires Inv(s) && j < SLOTS && s.procs[j].c.state.Ready? && m(s.procs[j], io) == Sends(p1, rPid, pid, cmd)
    requires p1 == s.procs[j].(c := s.procs[j].c.(pc := p1.c.pc)) && rPid < REG_COUNT == |p1.regs|
    ensures var r := StepSlot(m, s, j, io);
            var st := Decision(s, pid, cmd);
            && r.Stepped? && r.status.Ok? && Inv(r.s)
            && r.ev == (if st.Ok? then Sent(j, pid - 1, cmd) else Bounced(j, pid, cmd))
            && r.s.procs[j].c.pc == p1.c.pc && r.s.procs[j].heap == p1.heap
            && r.s.procs[j].regs == p1.regs[rPid := ReplyOf(st)]
            && forall k: nat :: k < SLOTS ==>
                 && (k != j ==> r.s.procs[k].regs == s.procs[k].regs && r.s.procs[k].heap == s.procs[k].heap)
                 && Queue(r.s, k) == Queue(s, k) + if st.Ok? && k == pid - 1 then [cmd] else []
  {
    var s0 := s.(procs := s.procs[j := p1]);
    Advanced(s, j, p1);
    assert Decision(s0, pid, cmd) == Decision(s, pid, cmd);
    PostDecides(s0, pid, cmd);
    PostKeeps(s0, pid, cmd);
    var (s1, st) := Post(s0, pid, cmd);
    ReplyWrites(s1, j, rPid, st);
    forall k: nat | k < SLOTS
      ensures k != j ==> s1.procs[k].regs == s.procs[k].regs && s1.procs[k].heap == s.procs[k].heap
      ensures Queue(s1, k) == Queue(s, k) + if st.Ok? && k == pid - 1 then [cmd] else []
    {
      assert PostedAt(s0, s1, pid, cmd, st.Ok?, k) && Queue(s0, k) == Queue(s, k);
    }
    assert PostedAt(s0, s1, pid, cmd, st.Ok?, j);
  }

  // The reply changes one register of one process.
  lemma ReplyWrites(s: Sys, j: nat, rPid: nat, st: Status)
    requires Inv(s) && j < SLOTS && rPid < REG_COUNT == |s.procs[j].regs|
    requires st in {Ok, InvalidCommand, BadArgument, MailboxFull, BadPid}
    ensures var s' := Reply(s, j, rPid, st);
            && Inv(s') && s' == s.(procs := s.procs[j := s.procs[j].(regs := s.procs[j].regs[rPid := ReplyOf(st)])])
            && forall k: nat :: k < SLOTS ==> Queue(s', k) == Queue(s, k)
  {
    WriteOne(s.procs[j].regs, rPid, MakeSmallint(st.Code()));
    var s' := Reply(s, j, rPid, st);
    forall k: nat
      ensures InvAt(s', k)
    {
      assert InvAt(s, k);
    }
  }

  // Moving the program counter of a READY process.
  lemma Advanced(s: Sys, j: nat, p1: Proc)
    requires Inv(s) && j < SLOTS && s.procs[j].c.state.Ready?
    requires p1 == s.procs[j].(c := s.procs[j].c.(pc := p1.c.pc))
    ensures Inv(s.(procs := s.procs[j := p1]))
    ensures forall k: nat :: k < SLOTS ==> Queue(s.(procs := s.procs[j := p1]), k) == Queue(s, k)
  {
    var s0 := s.(procs := s.procs[j := p1]);
    forall k: nat
      ensures InvAt(s0, k)
    {
      assert InvAt(s, k);
    }
  }
}
