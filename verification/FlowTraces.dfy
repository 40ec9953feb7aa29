// What the trace of a running flow tells: who sent what, what came from
// outside, and which readings were offered and taken.
module FlowTraces {
  import opened Commands
  import opened System
  import opened Scheduling
  import opened FlowProcesses

  // How many commands of process i were accepted.
  function SentBy(t: Trace, i: nat): nat {
    match t
    case Start => 0
    case Then(before, ev) => SentBy(before, i) + if ev.Sent? && ev.slot == i then 1 else 0
  }

  function SentByFirst(t: Trace, k: nat): nat {
    if k == 0 then 0 else SentByFirst(t, k - 1) + SentBy(t, k - 1)
  }

  lemma {:induction false} SentByFirstStep(t: Trace, ev: Event, k: nat)
    ensures SentByFirst(Then(t, ev), k) == SentByFirst(t, k) + if ev.Sent? && ev.slot < k then 1 else 0
    decreases k
  {
    if k > 0 {
      SentByFirstStep(t, ev, k - 1);
    }
  }

  lemma {:induction false} SentByFirstBound(t: Trace, k: nat)
    requires forall i: nat :: i < k ==> SentBy(t, i) <= 1
    ensures SentByFirst(t, k) <= k
    decreases k
  {
    if k > 0 {
      SentByFirstBound(t, k - 1);
    }
  }

  // The commands accepted for process j from outside.
  function Posts(t: Trace, j: nat): seq<Command> {
    match t
    case Start => []
    case Then(before, ev) => Posts(before, j) + if ev.Posted? && ev.receiver == j then [ev.cmd] else []
  }

  // Whatever processes sent went to n and was a duty for the channel.
  predicate SendsDuties(t: Trace, n: nat, channel: int) {
    t.Then? ==> SendsDuties(t.before, n, channel) && (t.ev.Sent? ==> t.ev.receiver == n && IsDuty(t.ev.cmd, channel))
  }

  // Every accepted command is such a duty, or came from outside.
  lemma {:induction false} AcceptedFrom(t: Trace, n: nat, channel: int)
    requires SendsDuties(t, n, channel)
    ensures forall cmd :: cmd in AcceptedBy(t, n) ==> IsDuty(cmd, channel) || cmd in Posts(t, n)
    decreases t
  {
    if t.Then? {
      AcceptedFrom(t.before, n, channel);
    }
  }

  // ---- readings ----

  // The readings that process i offered with SEND, accepted or not.
  function Offers(t: Trace, i: nat): seq<int> {
    match t
    case Start => []
    case Then(before, ev) => Offers(before, i) + if (ev.Sent? || ev.Bounced?) && ev.slot == i then [ev.cmd.b] else []
  }

  // Those that were accepted.
  function Taken(t: Trace, i: nat): seq<int> {
    match t
    case Start => []
    case Then(before, ev) => Taken(before, i) + if ev.Sent? && ev.slot == i then [ev.cmd.b] else []
  }

  function Duty(channel: int, v: int): Command { Command(CMD_PWM_SET_DUTY, channel, v, 0, 0) }

  // A reading that was taken is among the accepted commands.
  lemma {:induction false} TakenIsAccepted(t: Trace, i: nat, n: nat, channel: int)
    requires SendsDuties(t, n, channel)
    ensures |Taken(t, i)| == SentBy(t, i)
    ensures forall v :: v in Taken(t, i) ==> Duty(channel, v) in AcceptedBy(t, n)
    decreases t
  {
    if t.Then? {
      TakenIsAccepted(t.before, i, n, channel);
    }
  }

  // An event that is no SEND of j and not from outside.
  lemma QuietEvent(t: Trace, ev: Event, j: nat, n: nat)
    requires !ev.Posted? && ((ev.Sent? || ev.Bounced?) ==> ev.slot != j)
    ensures Offers(Then(t, ev), j) == Offers(t, j) && Taken(Then(t, ev), j) == Taken(t, j)
    ensures SentBy(Then(t, ev), j) == SentBy(t, j) && Posts(Then(t, ev), n) == Posts(t, n)
  {
  }

  // The first of them that is a duty in range.
  function FirstInRange(offers: seq<int>): (r: seq<int>)
    ensures |r| <= 1
    decreases |offers|
  {
    if offers == [] then [] else if ValidPwmDuty(offers[0]) then [offers[0]] else FirstInRange(offers[1..])
  }

  lemma {:induction false} FirstInRangeNext(offers: seq<int>, v: int)
    ensures FirstInRange(offers + [v]) ==
              if FirstInRange(offers) != [] then FirstInRange(offers) else if ValidPwmDuty(v) then [v] else []
    decreases |offers|
  {
    var all := offers + [v];
    if offers != [] {
      FirstInRangeNext(offers[1..], v);
      assert all[0] == offers[0] && all[1..] == offers[1..] + [v];
    } else {
      assert all[1..] == [];
    }
  }

  // What a sensor gets across, one of n.  A refusal leaves status 8 in the
  // register that named the actuator; with 7 sensors that still is the
  // actuator's PID.
  function Delivered(offers: seq<int>, n: nat): (r: seq<int>)
    ensures |r| <= 1
  {
    if n == 7 then FirstInRange(offers)
    else if offers != [] && ValidPwmDuty(offers[0]) then [offers[0]] else []
  }

  // Nothing more will be accepted.
  predicate Settled(offers: seq<int>, n: nat) {
    if n == 7 then FirstInRange(offers) != [] else offers != []
  }

  lemma OneMoreOffer(offers: seq<int>, n: nat, v: int)
    ensures Settled(offers, n) ==> Settled(offers + [v], n) && Delivered(offers + [v], n) == Delivered(offers, n)
    ensures !Settled(offers, n) ==>
              && Delivered(offers, n) == [] && Delivered(offers + [v], n) == (if ValidPwmDuty(v) then [v] else [])
              && (Settled(offers + [v], n) <==> n != 7 || ValidPwmDuty(v))
  {
    FirstInRangeNext(offers, v);
  }
}
