/**
 * The ESP32 firmware's sample generator as pure state transitions: the cyclic
 * walk over the fixed torque table, the 3000 ms gate on an unsigned clock,
 * the 4-byte little-endian packing of the current value, and the
 * connected/old-connected edge detector. Module Sensor's class is proved to
 * follow these functions.
 */
module SensorSpec {
  import opened Wrappers
  import opened LittleEndian

  /** `torqueArray`: the values the firmware cycles through, in Ncm. */
  const TorqueValues: seq<int> := [45, 85, 120, 165, 200, 175, 130, 90, 60, 30]
  /** `arraySize`, the element count of the table: `sizeof(torqueArray) / sizeof(torqueArray[0])`. */
  const ArraySize: nat := 10
  /** The update period of `loop()`, in milliseconds. */
  const UpdateIntervalMs: int := 3000

  const TwoTo32: int := 0x1_0000_0000
  /** `unsigned long` on the ESP32: 32 bits, arithmetic modulo 2^32. */
  type U32 = x: int | 0 <= x < TwoTo32

  /**
   * `(x >> 8*i) & 0xFF` for a 32-bit `int` x and 0 <= i < 4. The right shift
   * of a two's-complement value is division rounding down, and masking the
   * low eight bits is the non-negative remainder modulo 256; Dafny's `/` and
   * `%` by a positive divisor are exactly these.
   */
  function ByteAt(x: int, i: nat): Byte {
    (x / Pow256(i)) % 256
  }

  /** The four bytes `sendTorqueData` writes into `torqueBytes`. */
  function Encode(x: int): seq<Byte> {
    [ByteAt(x, 0), ByteAt(x, 1), ByteAt(x, 2), ByteAt(x, 3)]
  }

  lemma Pow256Values()
    ensures Pow256(1) == 0x100 && Pow256(2) == 0x1_0000 && Pow256(3) == 0x100_0000
    ensures Pow256(4) == TwoTo32
  {
  }

  /**
   * The round trip with the dashboard's decoder: the unsigned little-endian
   * value of the four bytes is the torque modulo 2^32. So every value in
   * 0 .. 2^32 - 1 comes back unchanged, and a negative 32-bit value comes
   * back as its unsigned reinterpretation.
   */
  lemma EncodeDecode(x: int)
    ensures Decode(Encode(x)) == x % TwoTo32
    ensures 0 <= x < TwoTo32 ==> Decode(Encode(x)) == x
    ensures -0x8000_0000 <= x < 0 ==> Decode(Encode(x)) == x + TwoTo32
  {
    Pow256Values();
    var q1 := x / 256;
    var q2 := q1 / 256;
    var q3 := q2 / 256;
    DivDiv(x, 256, 256);
    DivDiv(x, 0x1_0000, 256);
    assert x / 0x1_0000 == q2;
    assert x / 0x100_0000 == q3;
    var b := Encode(x);
    assert b[0] == x % 256 && b[1] == q1 % 256 && b[2] == q2 % 256 && b[3] == q3 % 256;
    ModSplit(q2, 256);
    ModSplit(q1, 0x1_0000);
    ModSplit(x, 0x100_0000);
    assert Decode(b[3..]) == b[3];
    assert Decode(b[2..]) == b[2] as int + 256 * (b[3] as int);
    assert Decode(b[1..]) == b[1] + 256 * Decode(b[2..]);
    assert Decode(b) == b[0] + 256 * Decode(b[1..]);
    if -0x8000_0000 <= x < 0 {
      DivModUnique(x, TwoTo32, -1, x + TwoTo32);
    } else if 0 <= x < TwoTo32 {
      DivModUnique(x, TwoTo32, 0, x);
    }
  }

  /** Every value of the table reaches the dashboard unchanged. */
  lemma TableRoundTrip(i: nat)
    requires i < ArraySize
    ensures Decode(Encode(TorqueValues[i])) == TorqueValues[i]
  {
    EncodeDecode(TorqueValues[i]);
  }

  // ------------------------------------------------------------------ state

  /** The firmware's globals. */
  datatype SensorState = SensorState(
    deviceConnected: bool,
    oldDeviceConnected: bool,
    currentIndex: int,
    currentTorque: int,
    lastUpdate: U32)

  predicate Valid(s: SensorState) {
    0 <= s.currentIndex < ArraySize
  }

  /** The globals' initial values. */
  function Initial(): SensorState {
    SensorState(false, false, 0, 0, 0)
  }

  /** `ServerCallbacks::onConnect`. */
  function OnConnect(s: SensorState): SensorState {
    s.(deviceConnected := true)
  }

  /** `ServerCallbacks::onDisconnect`. */
  function OnDisconnect(s: SensorState): SensorState {
    s.(deviceConnected := false)
  }

  /** `millis() - lastUpdate` in `unsigned long` arithmetic. */
  function Elapsed(now: U32, last: U32): U32 {
    (now - last) % TwoTo32
  }

  predicate UpdateDue(now: U32, last: U32) {
    Elapsed(now, last) > UpdateIntervalMs
  }

  /** What one pass of `loop()` does beyond its state: whether it updated, the payload it
      notified, and whether it restarted advertising. */
  datatype LoopOutput = LoopOutput(updated: bool, sent: Option<seq<Byte>>, advertisingRestarted: bool)

  datatype LoopResult = LoopResult(next: SensorState, out: LoopOutput)

  /**
   * One pass of `loop()`. `clock` is the `millis()` of the gate, `stamp` the
   * `millis()` read again when `lastUpdate` is stored.
   */
  function LoopStep(s: SensorState, clock: U32, stamp: U32): LoopResult
    requires Valid(s)
  {
    var due := UpdateDue(clock, s.lastUpdate);
    var sent := if due && s.deviceConnected then Some(Encode(TorqueValues[s.currentIndex])) else None;
    var restart := !s.deviceConnected && s.oldDeviceConnected;
    LoopResult(Advance(s, clock, stamp), LoopOutput(due, sent, restart))
  }

  /** The globals after one pass of `loop()`. */
  function Advance(s: SensorState, clock: U32, stamp: U32): SensorState
    requires Valid(s)
  {
    var s1 := if UpdateDue(clock, s.lastUpdate)
      then s.(currentTorque := TorqueValues[s.currentIndex],
              currentIndex := (s.currentIndex + 1) % ArraySize, lastUpdate := stamp)
      else s;
    s1.(oldDeviceConnected := s.deviceConnected)
  }

  /** The rules of one pass, stated as the firmware promises them. */
  lemma LoopStepRules(s: SensorState, clock: U32, stamp: U32)
    requires Valid(s)
    ensures var r := LoopStep(s, clock, stamp);
      Valid(r.next) &&
      (r.out.updated <==> (clock - s.lastUpdate) % TwoTo32 > 3000) &&
      (r.out.updated ==>
         r.next.currentTorque == TorqueValues[s.currentIndex] &&
         r.next.currentIndex == (if s.currentIndex == ArraySize - 1 then 0 else s.currentIndex + 1) &&
         r.next.lastUpdate == stamp) &&
      (!r.out.updated ==>
         r.next.currentTorque == s.currentTorque && r.next.currentIndex == s.currentIndex &&
         r.next.lastUpdate == s.lastUpdate) &&
      (r.out.sent.Some? <==> r.out.updated && s.deviceConnected) &&
      (r.out.sent.Some? ==> |r.out.sent.value| == 4 && Decode(r.out.sent.value) == r.next.currentTorque) &&
      (r.out.advertisingRestarted <==> s.oldDeviceConnected && !s.deviceConnected) &&
      r.next.deviceConnected == s.deviceConnected &&
      r.next.oldDeviceConnected == r.next.deviceConnected
  {
    var r := LoopStep(s, clock, stamp);
    if r.out.sent.Some? {
      TableRoundTrip(s.currentIndex);
    }
  }

  // ------------------------------------------------------------------ traces

  datatype SensorInput = LoopPass(clock: U32, stamp: U32) | ClientConnected | ClientDisconnected

  function Apply(s: SensorState, x: SensorInput): (t: SensorState)
    requires Valid(s)
    ensures Valid(t)
  {
    match x
    case LoopPass(clock, stamp) => Advance(s, clock, stamp)
    case ClientConnected => OnConnect(s)
    case ClientDisconnected => OnDisconnect(s)
  }

  function Run(s: SensorState, xs: seq<SensorInput>): (t: SensorState)
    requires Valid(s)
    ensures Valid(t)
    decreases |xs|
  {
    if xs == [] then s else Run(Apply(s, xs[0]), xs[1..])
  }

  /** Adding a multiple of n does not change the remainder modulo n. */
  lemma ModAddMultiple(x: int, q: int, n: int)
    requires n > 0
    ensures (x + q * n) % n == x % n
  {
    assert x + q * n == (x / n + q) * n + x % n;
    DivModUnique(x + q * n, n, x / n + q, x % n);
  }

  /** Reducing the index before moving on k places lands where moving k + 1 places does. */
  lemma StepThenMove(i: int, k: int, n: int)
    requires n > 0
    ensures ((i + 1) % n + k) % n == (i + 1 + k) % n
  {
    var m := i + 1;
    assert m == (m / n) * n + m % n;
    ModAddMultiple(m % n + k, m / n, n);
  }

  /** `em` lists the values of `table` in order from index i, wrapping around. */
  predicate CyclesFrom(em: seq<int>, table: seq<int>, i: int)
    requires |table| > 0
  {
    forall j :: 0 <= j < |em| ==> em[j] == table[(i + j) % |table|]
  }

  /** The index arithmetic of one update in front of the rest of a trace. */
  lemma ConsCycles(table: seq<int>, i: nat, rest: seq<int>)
    requires i < |table|
    requires CyclesFrom(rest, table, (i + 1) % |table|)
    ensures CyclesFrom([table[i]] + rest, table, i)
  {
    var em := [table[i]] + rest;
    forall j | 0 <= j < |em|
      ensures em[j] == table[(i + j) % |table|]
    {
      if j == 0 {
        DivModUnique(i, |table|, 0, i);
      } else {
        var k := j - 1;
        assert em[j] == rest[k];
        assert rest[k] == table[((i + 1) % |table| + k) % |table|];
        StepThenMove(i, k, |table|);
      }
    }
  }

  /** Whether the input is a pass of `loop()` that takes the next value. */
  predicate Updates(s: SensorState, x: SensorInput)
    requires Valid(s)
  {
    x.LoopPass? && UpdateDue(x.clock, s.lastUpdate)
  }

  /** Only an updating pass moves the index, by one place. */
  lemma ApplyIndex(s: SensorState, x: SensorInput)
    requires Valid(s)
    ensures Apply(s, x).currentIndex == if Updates(s, x) then (s.currentIndex + 1) % ArraySize else s.currentIndex
  {
  }

  /** The values `currentTorque` takes at each update along a trace, sent or not. */
  function Emitted(s: SensorState, xs: seq<SensorInput>): seq<int>
    requires Valid(s)
    decreases |xs|
  {
    if xs == [] then []
    else (if Updates(s, xs[0]) then [TorqueValues[s.currentIndex]] else []) + Emitted(Apply(s, xs[0]), xs[1..])
  }

  /** Along a trace the index moves one place, modulo the table size, per update. */
  lemma {:induction false} IndexAdvances(s: SensorState, xs: seq<SensorInput>)
    requires Valid(s)
    ensures Run(s, xs).currentIndex == (s.currentIndex + |Emitted(s, xs)|) % ArraySize
    decreases |xs|
  {
    if xs == [] {
      DivModUnique(s.currentIndex, ArraySize, 0, s.currentIndex);
    } else {
      var t := Apply(s, xs[0]);
      IndexAdvances(t, xs[1..]);
      ApplyIndex(s, xs[0]);
      var k := |Emitted(t, xs[1..])|;
      assert |Emitted(s, xs)| == (if Updates(s, xs[0]) then 1 else 0) + k;
      if Updates(s, xs[0]) {
        StepThenMove(s.currentIndex, k, ArraySize);
      }
    }
  }

  /**
   * Successive updates take the table's values in order from the current
   * index, wrapping to the start after the last.
   */
  lemma {:induction false} EmittedCycles(s: SensorState, xs: seq<SensorInput>)
    requires Valid(s)
    ensures CyclesFrom(Emitted(s, xs), TorqueValues, s.currentIndex)
    decreases |xs|
  {
    if xs != [] {
      var t := Apply(s, xs[0]);
      EmittedCycles(t, xs[1..]);
      ApplyIndex(s, xs[0]);
      var rest := Emitted(t, xs[1..]);
      if Updates(s, xs[0]) {
        assert Emitted(s, xs) == [TorqueValues[s.currentIndex]] + rest;
        ConsCycles(TorqueValues, s.currentIndex, rest);
      } else {
        assert Emitted(s, xs) == rest;
      }
    }
  }

  /** From power-on, the k-th update takes `torqueArray[k % arraySize]`. */
  lemma FromPowerOn(xs: seq<SensorInput>)
    ensures var em := Emitted(Initial(), xs);
      forall j :: 0 <= j < |em| ==> em[j] == TorqueValues[j % ArraySize]
  {
    EmittedCycles(Initial(), xs);
  }
}
