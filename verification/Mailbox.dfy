// The bounded mailbox: a ring buffer of 32 commands (mb_types.h,
// mb_vm.c:98-125) and the queue it stands for.
module Mailbox {
  import opened Commands

  const CAPACITY := 32

  datatype Ring = Ring(items: seq<Command>, head: nat, tail: nat, count: nat) {
    // The i-th oldest queued command.
    function Get(i: nat): Command
      requires |items| == CAPACITY
    {
      items[(head + i) % CAPACITY]
    }

    ghost predicate Valid() {
      && |items| == CAPACITY
      && head < CAPACITY && count <= CAPACITY
      && tail == (head + count) % CAPACITY
      && forall i: nat :: i < count ==> Validate(Get(i)).Ok?
    }

    // The queued commands, oldest first.
    ghost function Contents(): (q: seq<Command>)
      requires Valid()
      ensures |q| == count
      ensures forall i: nat :: i < count ==> q[i] == Get(i)
    {
      seq(count, i requires 0 <= i < count => Get(i))
    }
  }

  const NO_COMMAND := Command(0, 0, 0, 0, 0)

  function EmptyRing(): (r: Ring)
    ensures r.Valid() && r.Contents() == []
  {
    Ring(seq(CAPACITY, _ => NO_COMMAND), 0, 0, 0)
  }

  datatype Popped = Empty | Popped(ring: Ring, cmd: Command)

  // mb_mailbox_push_raw.
  function RingPush(r: Ring, cmd: Command): (Ring, Status) {
    if !Validate(cmd).Ok? then (r, Validate(cmd))
    else if r.count >= CAPACITY || r.tail >= |r.items| then (r, MailboxFull)
    else (Ring(r.items[r.tail := cmd], r.head, (r.tail + 1) % CAPACITY, r.count + 1), Ok)
  }

  // mb_mailbox_pop_raw.
  function RingPop(r: Ring): Popped {
    if r.count == 0 || r.head >= |r.items| then Empty
    else Popped(r.(head := (r.head + 1) % CAPACITY, count := r.count - 1), r.items[r.head])
  }

  // The ring refines a bounded queue: a push appends one valid command or
  // changes nothing and says why.
  lemma PushAppends(r: Ring, cmd: Command)
    requires r.Valid()
    ensures var (r', s) := RingPush(r, cmd);
            && r'.Valid()
            && s == (if !Validate(cmd).Ok? then Validate(cmd) else if |r.Contents()| == CAPACITY then MailboxFull
                 else Ok)
            && r'.Contents() == (if s.Ok? then r.Contents() + [cmd] else r.Contents())
            && (!s.Ok? ==> r' == r)
  {
    var (r', s) := RingPush(r, cmd);
    if s.Ok? {
      forall i: nat | i < r'.count
        ensures r'.Get(i) == if i < r.count then r.Get(i) else cmd
      {
        if i < r.count { assert (r.head + i) % CAPACITY != r.tail; }
      }
      assert r'.Contents() == r.Contents() + [cmd];
    }
  }

  lemma Around(n: nat)
    requires n < 2 * CAPACITY
    ensures n % CAPACITY == if n < CAPACITY then n else n - CAPACITY
  {
  }

  lemma NextSlot(head: nat, i: nat)
    requires head < CAPACITY && i < CAPACITY
    ensures ((head + 1) % CAPACITY + i) % CAPACITY == (head + (i + 1)) % CAPACITY
  {
    Around(head + 1);
    Around(head + 1 + i);
    Around((head + 1) % CAPACITY + i);
  }

  // A pop takes the oldest command, and fails exactly on the empty queue.
  lemma PopTakesOldest(r: Ring)
    requires r.Valid()
    ensures RingPop(r).Empty? <==> r.Contents() == []
    ensures RingPop(r).Popped? ==>
              && RingPop(r).ring.Valid()
              && RingPop(r).cmd == r.Contents()[0]
              && RingPop(r).ring.Contents() == r.Contents()[1..]
  {
    if RingPop(r).Popped? {
      var r' := RingPop(r).ring;
      NextSlot(r.head, r.count - 1);
      forall i: nat | i < r'.count
        ensures r'.Get(i) == r.Get(i + 1)
      {
        NextSlot(r.head, i);
      }
      assert r'.Contents() == r.Contents()[1..];
    }
  }

  // The ring in place.
  class Buffer {
    const items: array<Command>
    var head: nat
    var tail: nat
    var count: nat

    ghost predicate Shaped()
      reads this
    {
      items.Length == CAPACITY && head < CAPACITY && tail < CAPACITY && count <= CAPACITY
    }

    ghost function Model(): Ring
      reads this, items
    {
      Ring(items[..], head, tail, count)
    }

    constructor ()
      ensures Shaped() && fresh(items) && Model() == EmptyRing()
    {
      items := new Command[CAPACITY](_ => NO_COMMAND);
      head, tail, count := 0, 0, 0;
    }

    method Init()
      requires Shaped()
      modifies this, items
      ensures Shaped() && Model() == EmptyRing()
    {
      forall i | 0 <= i < items.Length {
        items[i] := NO_COMMAND;
      }
      head, tail, count := 0, 0, 0;
    }

    method Push(cmd: Command) returns (s: Status)
      requires Shaped()
      modifies this, items
      ensures Shaped() && (Model(), s) == RingPush(old(Model()), cmd)
    {
      s := Validate(cmd);
      if s != Ok {
        return;
      }
      if count >= CAPACITY {
        return MailboxFull;
      }
      items[tail] := cmd;
      tail := (tail + 1) % CAPACITY;
      count := count + 1;
    }

    method Pop() returns (s: Status, cmd: Command)
      requires Shaped()
      modifies this
      ensures Shaped()
      ensures s == if RingPop(old(Model())).Popped? then Ok else MailboxEmpty
      ensures s.Ok? ==> Popped(Model(), cmd) == RingPop(old(Model()))
      ensures !s.Ok? ==> Model() == old(Model())
    {
      if count == 0 {
        return MailboxEmpty, NO_COMMAND;
      }
      cmd := items[head];
      head := (head + 1) % CAPACITY;
      count := count - 1;
      s := Ok;
    }
  }
}
