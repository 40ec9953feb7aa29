// The table holds eight processes.
module Limits {
  import opened Term
  import opened Bytecode
  import opened Machine
  import opened System
  import opened Scheduling
  import opened FlowHistories

  // From power-up any programs can be spawned, in order, iff there are at
  // most eight; of more, the first eight run.
  lemma TableHoldsEight(m: Stepper, progs: seq<seq<Byte>>, capacity: nat)
    requires capacity <= MAX_SPACE
    ensures var r := Perform(m, Initial(capacity), Spawns(progs), Start);
            && r.Ran? && |r.s.procs| == 8
            && (r.status.Ok? <==> |progs| <= 8) && (!r.status.Ok? ==> r.status.ProcTableFull?)
            && r.s.count == (if |progs| <= 8 then |progs| else 8)
            && forall k :: 0 <= k < 8 ==>
                 r.s.procs[k] == if k < |progs| then Spawned(k + 1, progs[k], capacity) else Blank(capacity)
  {
    if |progs| <= 8 {
      InitialGood(capacity);
      assert Booted(progs[..0], capacity).procs == Initial(capacity).procs;
      assert Spawns(progs)[0..] == Spawns(progs);
      assert Silent(Start);
      var t := Boot(m, progs, capacity, 0, Start);
    } else {
      var first, rest := progs[..8], Spawns(progs)[8..];
      assert Spawns(progs) == Spawns(first) + rest;
      SpawnsBeyondEight(m, first, rest, capacity);
    }
  }
}
