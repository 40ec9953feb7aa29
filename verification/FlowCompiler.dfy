// The flow compiler (flow_compile.escript): validation and code generation.
// A flow is an Erlang map; here it is given by its parts.
module FlowCompiler {
  import opened Term
  import opened Bytecode

  datatype Sensor = Sensor(bus: int, addr: int, reg: int, pollMs: int)

  datatype Actuator = Pwm(channel: int) | OtherActuator

  datatype Target = ToPwm(channel: int) | OtherTarget

  datatype Route = Route(from: int, to: Target)

  datatype OnFail = StopActuator | HoldLast | Ignore | OtherMode

  datatype Policy = Policy(mailboxDepth: int, watchdogMs: int, onFail: OnFail)

  datatype Flow = Flow(sensors: seq<Sensor>, actuators: seq<Actuator>, flows: seq<Route>, policy: Policy)

  predicate ValidSensor(s: Sensor) {
    0 <= s.bus <= 3 && 0 <= s.addr <= 127 && 0 <= s.reg <= 255 && s.pollMs >= 0
  }

  predicate ValidActuator(a: Actuator) { a.Pwm? && 0 <= a.channel <= 7 }

  predicate ValidRoute(f: Route, sensors: seq<Sensor>, actuators: seq<Actuator>) {
    && f.to.ToPwm?
    && (exists i :: 0 <= i < |sensors| && sensors[i].addr == f.from)
    && (exists i :: 0 <= i < |actuators| && actuators[i].Pwm? && actuators[i].channel == f.to.channel)
  }

  predicate ValidPolicy(p: Policy) { p.mailboxDepth > 0 && p.watchdogMs > 0 && !p.onFail.OtherMode? }

  predicate ValidFlow(f: Flow) {
    && (forall i :: 0 <= i < |f.sensors| ==> ValidSensor(f.sensors[i]))
    && (forall i :: 0 <= i < |f.actuators| ==> ValidActuator(f.actuators[i]))
    && (forall i :: 0 <= i < |f.flows| ==> ValidRoute(f.flows[i], f.sensors, f.actuators))
    && ValidPolicy(f.policy)
  }

  // The low 32 bits of v, least significant byte first.
  function I32le(v: int): (bs: seq<Byte>)
    ensures |bs| == 4
    decreases if v < 0 then -v else 0
  {
    if v >= 0 then [v % 256, v / 256 % 256, v / 0x1_0000 % 256, v / 0x100_0000 % 256]
    else I32le(0x1_0000_0000 + v)
  }

  function ConstCode(r: Byte, v: int): (bs: seq<Byte>)
    ensures |bs| == 6
  {
    [0x01, r] + I32le(v)
  }

  function Flatten(chunks: seq<seq<Byte>>): seq<Byte> {
    if chunks == [] then [] else chunks[0] + Flatten(chunks[1..])
  }

  // The value CONST_I32 loads into each register before the loop.
  function SensorConsts(s: Sensor, channel: int, actPid: int): seq<(Byte, int)> {
    [(0, s.bus), (1, s.addr), (2, s.reg), (3, actPid), (4, 2), (5, channel), (6, s.pollMs), (8, 0)]
  }

  function ConstChunks(cs: seq<(Byte, int)>): (chunks: seq<seq<Byte>>)
    ensures |chunks| == |cs|
    ensures forall i :: 0 <= i < |cs| ==> chunks[i] == ConstCode(cs[i].0, cs[i].1)
  {
    seq(|cs|, i requires 0 <= i < |cs| => ConstCode(cs[i].0, cs[i].1))
  }

  function SensorBody(s: Sensor): seq<Byte> {
    Flatten([[0x10, 3, 3, 0, 1, 2, 7],
             [0x10, 4, 0, 9],
             [0x21, 3, 4, 5, 7, 8, 8],
             if s.pollMs == 0 then [0x23] else [0x40, 6]])
  }

  function CompileSensor(s: Sensor, channel: int, actPid: int): seq<Byte> {
    var init := Flatten(ConstChunks(SensorConsts(s, channel, actPid)));
    var body := SensorBody(s);
    var loopPc := |init|;
    var jump := loopPc - (loopPc + |body| + 5);
    init + body + ([0x30] + I32le(jump))
  }

  function CompileActuator(): seq<Byte> {
    var body := Flatten([[0x20, 0, 1, 2, 3, 4], [0x10, 2, 2, 1, 2, 5]]);
    body + ([0x30] + I32le(0 - (|body| + 5)))
  }

  datatype Compiled = BadMatch | Compiled(sensorProgs: seq<seq<Byte>>, actuatorProg: seq<Byte>)

  // The PID the sensors are told to send to: the last one spawned.
  function ActuatorPid(f: Flow): nat { |f.sensors| + 1 }

  // Every sensor is compiled for the channel of the first flow; without a
  // flow to a PWM channel the pattern match fails.
  function CompileFlow(f: Flow): Compiled {
    if f.flows == [] || !f.flows[0].to.ToPwm? then BadMatch
    else
      Compiled(
        seq(|f.sensors|, i requires 0 <= i < |f.sensors| =>
          CompileSensor(f.sensors[i], f.flows[0].to.channel, ActuatorPid(f))),
        CompileActuator())
  }

  // ---- encoding ----

  // The value of the low 32 bits of v in two's complement.
  function Signed32(v: int): (r: int)
    ensures -0x8000_0000 <= r < 0x8000_0000
    ensures (r - v) % 0x1_0000_0000 == 0
    ensures -0x8000_0000 <= v < 0x8000_0000 <==> r == v
  {
    if v % 0x1_0000_0000 < 0x8000_0000 then v % 0x1_0000_0000 else v % 0x1_0000_0000 - 0x1_0000_0000
  }

  lemma BytesOf(v: int)
    requires v >= 0
    ensures v % 256 + v / 256 % 256 * 0x100 + v / 0x1_0000 % 256 * 0x1_0000 + v / 0x100_0000 % 256 * 0x100_0000 ==
            v % 0x1_0000_0000
  {
    var a, b, c := v / 256, v / 0x1_0000, v / 0x100_0000;
    assert v == v % 256 + 256 * a;
    assert b == a / 256 && a == a % 256 + 256 * b;
    assert c == b / 256 && b == b % 256 + 256 * c;
    assert v / 0x1_0000_0000 == c / 256;
  }

  // The machine's fetch undoes the compiler's encoding modulo 2^32.
  lemma {:induction false} I32RoundTrip(v: int)
    ensures var bs := I32le(v); ToI32(bs[0], bs[1], bs[2], bs[3]) == Signed32(v)
    decreases if v < 0 then -v else 0
  {
    if v >= 0 {
      I32Bytes(v);
    } else {
      var w := 0x1_0000_0000 + v;
      I32RoundTrip(w);
      SameLowBits(v, w);
      assert I32le(v) == I32le(w);
    }
  }

  lemma SameLowBits(v: int, w: int)
    requires w == 0x1_0000_0000 + v
    ensures Signed32(w) == Signed32(v)
  {
    assert w % 0x1_0000_0000 == v % 0x1_0000_0000;
  }

  lemma I32Bytes(v: int)
    requires v >= 0
    ensures var bs := I32le(v); ToI32(bs[0], bs[1], bs[2], bs[3]) == Signed32(v)
  {
    BytesOf(v);
  }

  lemma Signed32Keeps28(v: int)
    ensures MakeSmallint(Signed32(v)) == MakeSmallint(v)
  {
  }

  // What CONST_I32 loads from the compiler's bytes: v in signed 28 bits, and
  // v itself iff v is a smallint.
  lemma ConstLoads(v: int)
    ensures var bs := I32le(v);
            var w := MakeSmallint(ToI32(bs[0], bs[1], bs[2], bs[3]));
            && w == MakeSmallint(v) && GetSmallint(w) == Signed28(v)
            && (GetSmallint(w) == v <==> SMALLINT_MIN <= v <= SMALLINT_MAX)
  {
    I32RoundTrip(v);
    Signed32Keeps28(v);
    SmallintRoundTrip(v);
  }

  // ---- layout ----

  lemma {:induction false} FlattenSixes(chunks: seq<seq<Byte>>, k: nat)
    requires forall i :: 0 <= i < |chunks| ==> |chunks[i]| == 6
    ensures |Flatten(chunks)| == 6 * |chunks|
    ensures k < |chunks| ==> Flatten(chunks)[6 * k..6 * k + 6] == chunks[k]
    decreases |chunks|
  {
    if chunks != [] {
      if k > 0 {
        FlattenSixes(chunks[1..], k - 1);
        if k < |chunks| {
          assert Flatten(chunks)[6 * k..6 * k + 6] == Flatten(chunks[1..])[6 * (k - 1)..6 * (k - 1) + 6];
        }
      } else {
        FlattenSixes(chunks[1..], 0);
      }
    }
  }

  lemma BodyBytes(s: Sensor)
    ensures SensorBody(s) ==
              [0x10, 3, 3, 0, 1, 2, 7, 0x10, 4, 0, 9, 0x21, 3, 4, 5, 7, 8, 8] +
              if s.pollMs == 0 then [0x23] else [0x40, 6]
  {
    var d: seq<Byte> := if s.pollMs == 0 then [0x23] else [0x40, 6];
    assert Flatten([d]) == d;
    assert Flatten([[0x21, 3, 4, 5, 7, 8, 8], d]) == [0x21, 3, 4, 5, 7, 8, 8] + d;
    assert Flatten([[0x10, 4, 0, 9], [0x21, 3, 4, 5, 7, 8, 8], d]) == [0x10, 4, 0, 9] + ([0x21, 3, 4, 5, 7, 8, 8] + d);
  }

  lemma ActuatorBytes()
    ensures CompileActuator() == [0x20, 0, 1, 2, 3, 4, 0x10, 2, 2, 1, 2, 5] + ([0x30] + I32le(-17))
  {
    assert Flatten([[0x10, 2, 2, 1, 2, 5]]) == [0x10, 2, 2, 1, 2, 5];
  }

  // The address of a sensor's final jump.
  function JumpPc(s: Sensor): nat { if s.pollMs == 0 then 67 else 68 }

  // The layout by the list of constants.
  lemma SensorLayout(s: Sensor, channel: int, actPid: int)
    ensures var prog, cs := CompileSensor(s, channel, actPid), SensorConsts(s, channel, actPid);
            && |prog| == JumpPc(s) + 5
            && (forall k :: 0 <= k < 8 ==> prog[6 * k..6 * k + 6] == ConstCode(cs[k].0, cs[k].1))
            && prog[48..JumpPc(s)] == [0x10, 3, 3, 0, 1, 2, 7, 0x10, 4, 0, 9, 0x21, 3, 4, 5, 7, 8, 8]
                                     + (if s.pollMs == 0 then [0x23] else [0x40, 6])
            && prog[JumpPc(s)..] == [0x30] + I32le(48 - (JumpPc(s) + 5))
  {
    var prog, cs := CompileSensor(s, channel, actPid), SensorConsts(s, channel, actPid);
    var chunks := ConstChunks(cs);
    FlattenSixes(chunks, 0);
    BodyBytes(s);
    forall k | 0 <= k < 8
      ensures prog[6 * k..6 * k + 6] == ConstCode(cs[k].0, cs[k].1)
    {
      FlattenSixes(chunks, k);
      assert prog[6 * k..6 * k + 6] == Flatten(chunks)[6 * k..6 * k + 6];
    }
  }

  lemma SensorConst(s: Sensor, channel: int, actPid: int, k: nat, at: nat)
    requires k < 8 && at == 6 * k
    ensures var prog, c := CompileSensor(s, channel, actPid), SensorConsts(s, channel, actPid)[k];
            at + 6 <= |prog| && prog[at..at + 6] == [0x01, c.0] + I32le(c.1)
  {
    SensorLayout(s, channel, actPid);
    var prog, c := CompileSensor(s, channel, actPid), SensorConsts(s, channel, actPid)[k];
    assert prog[6 * k..6 * k + 6] == ConstCode(c.0, c.1);
  }

  // A compiled sensor, byte for byte: eight constants, among them the poll
  // interval in r6, the loop, and the jump back to address 48.
  lemma SensorBytes(s: Sensor, channel: int, actPid: int)
    ensures var prog := CompileSensor(s, channel, actPid);
            && |prog| == (if s.pollMs == 0 then 72 else 73)
            && prog[0..6] == [0x01, 0] + I32le(s.bus)
            && prog[6..12] == [0x01, 1] + I32le(s.addr)
            && prog[12..18] == [0x01, 2] + I32le(s.reg)
            && prog[18..24] == [0x01, 3] + I32le(actPid)
            && prog[24..30] == [0x01, 4] + I32le(2)
            && prog[30..36] == [0x01, 5] + I32le(channel)
            && prog[36..42] == [0x01, 6] + I32le(s.pollMs)
            && prog[42..48] == [0x01, 8] + I32le(0)
            && prog[48..55] == [0x10, 3, 3, 0, 1, 2, 7]
            && prog[55..59] == [0x10, 4, 0, 9]
            && prog[59..66] == [0x21, 3, 4, 5, 7, 8, 8]
            && (s.pollMs == 0 ==> prog[66] == 0x23 && prog[67..] == [0x30] + I32le(-24))
            && (s.pollMs != 0 ==> prog[66..68] == [0x40, 6] && prog[68..] == [0x30] + I32le(-25))
  {
    var prog := CompileSensor(s, channel, actPid);
    SensorLayout(s, channel, actPid);
    SensorConst(s, channel, actPid, 0, 0); SensorConst(s, channel, actPid, 1, 6);
    SensorConst(s, channel, actPid, 2, 12); SensorConst(s, channel, actPid, 3, 18);
    SensorConst(s, channel, actPid, 4, 24); SensorConst(s, channel, actPid, 5, 30);
    SensorConst(s, channel, actPid, 6, 36); SensorConst(s, channel, actPid, 7, 42);
    var loop := prog[48..JumpPc(s)];
    assert prog[48..55] == loop[0..7] && prog[55..59] == loop[7..11] && prog[59..66] == loop[11..18];
    assert prog[66..JumpPc(s)] == loop[18..];
  }

  // The bytes of an integer, weighed: least significant first.
  lemma {:induction false} I32Weighs(v: int)
    ensures var bs := I32le(v);
            bs[0] as int + bs[1] as int * 0x100 + bs[2] as int * 0x1_0000 + bs[3] as int * 0x100_0000
              == v % 0x1_0000_0000
    decreases if v < 0 then -v else 0
  {
    if v >= 0 {
      BytesOf(v);
    } else {
      I32Weighs(0x1_0000_0000 + v);
      assert I32le(v) == I32le(0x1_0000_0000 + v);
    }
  }
}
