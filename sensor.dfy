/**
 * The ESP32 firmware's globals and entry points as an object: the BLE server
 * callbacks, one pass of `loop()`, and `sendTorqueData`, each proved to follow
 * module SensorSpec. `millis()` readings arrive as parameters; the payload
 * handed to the characteristic is returned.
 */
module Sensor {
  import opened Wrappers
  import opened LittleEndian
  import opened SensorSpec

  class TorqueSensor {
    var deviceConnected: bool
    var oldDeviceConnected: bool
    var currentIndex: int
    var currentTorque: int
    var lastUpdate: U32

    /** The index stays inside `torqueArray`. */
    predicate Valid()
      reads this
    {
      0 <= currentIndex < ArraySize
    }

    function State(): SensorState
      reads this
    {
      SensorState(deviceConnected, oldDeviceConnected, currentIndex, currentTorque, lastUpdate)
    }

    /** The globals as the firmware starts; `setup()`'s BLE initialisation is not modelled. */
    constructor ()
      ensures Valid() && State() == SensorSpec.Initial()
    {
      deviceConnected, oldDeviceConnected := false, false;
      currentIndex, currentTorque := 0, 0;
      lastUpdate := 0;
    }

    /** `ServerCallbacks::onConnect`. */
    method OnConnect()
      requires Valid()
      modifies this
      ensures Valid()
      ensures State() == SensorSpec.OnConnect(old(State()))
      ensures deviceConnected
    {
      deviceConnected := true;
    }

    /** `ServerCallbacks::onDisconnect`. */
    method OnDisconnect()
      requires Valid()
      modifies this
      ensures Valid()
      ensures State() == SensorSpec.OnDisconnect(old(State()))
      ensures !deviceConnected
    {
      deviceConnected := false;
    }

    /**
     * `sendTorqueData`: fill `torqueBytes[4]` least significant byte first.
     * The payload is the four bytes of the current torque, and the dashboard's
     * decoder turns it back into that torque modulo 2^32.
     */
    method SendTorqueData() returns (payload: seq<Byte>)
      ensures |payload| == 4
      ensures forall i :: 0 <= i < 4 ==> payload[i] == (currentTorque / Pow256(i)) % 256
      ensures payload == Encode(currentTorque)
      ensures Decode(payload) == currentTorque % TwoTo32
      ensures 0 <= currentTorque < TwoTo32 ==> Decode(payload) == currentTorque
    {
      var torqueBytes := new Byte[4];
      torqueBytes[0] := currentTorque % 0x100;                   // currentTorque & 0xFF
      torqueBytes[1] := (currentTorque / 0x100) % 0x100;         // (currentTorque >> 8) & 0xFF
      torqueBytes[2] := (currentTorque / 0x1_0000) % 0x100;      // (currentTorque >> 16) & 0xFF
      torqueBytes[3] := (currentTorque / 0x100_0000) % 0x100;    // (currentTorque >> 24) & 0xFF
      payload := torqueBytes[..];
      Pow256Values();
      EncodeDecode(currentTorque);
    }

    /**
     * One pass of `loop()`: `clock` is the `millis()` the gate reads and
     * `stamp` the `millis()` stored in `lastUpdate`.
     */
    method Loop(clock: U32, stamp: U32) returns (out: LoopOutput)
      requires Valid()
      modifies this
      ensures Valid()
      ensures var r := LoopStep(old(State()), clock, stamp);
        State() == r.next && out == r.out
      ensures oldDeviceConnected == deviceConnected
    {
      var updated := false;
      var sent: Option<seq<Byte>> := None;
      if (clock - lastUpdate) % TwoTo32 > UpdateIntervalMs {
        currentTorque := TorqueValues[currentIndex];
        if deviceConnected {
          var payload := SendTorqueData();
          sent := Some(payload);
        }
        currentIndex := (currentIndex + 1) % ArraySize;
        lastUpdate := stamp;
        updated := true;
      }
      var restarted := false;
      if !deviceConnected && oldDeviceConnected {
        restarted := true;    // pServer->startAdvertising()
        oldDeviceConnected := deviceConnected;
      }
      if deviceConnected && !oldDeviceConnected {
        oldDeviceConnected := deviceConnected;
      }
      out := LoopOutput(updated, sent, restarted);
    }
  }
}
