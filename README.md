# Torque sensor BLE link: session bookkeeping and sample encoder

This project models the two pieces of sequential logic at the ends of a BLE
torque-sensor link, and proves properties of them.

- **The desktop dashboard** (`Torque_dashboad.py`, class `TorqueDashboard`).
  It scans for the sensor by name. It keeps the session flags `is_connected`,
  `connection_active` and `app_running`, the retry counter with its limit of
  three, the auto-retry switch, the discovered address and the alert
  threshold. Its event handlers update these fields. Its connection worker
  connects, then reads the characteristic, decodes it as a little-endian
  unsigned integer and emits it, for as long as the link and the flags hold.
- **The ESP32 firmware** (`main.cpp`). It steps through a fixed table of ten
  torque values, moving on only when more than 3000 ms have passed by an unsigned 32-bit clock (each pass also waits 100 ms). It packs the
  current value into four little-endian bytes for a connected client, and it
  restarts advertising after a disconnect.

Layout:

- `little_endian.dfy`: the dashboard's decoder (`int.from_bytes(..., "little")`), proved equal to the positional sum of `byte[i] * 256^i`.
- `notifications.dfy`: the payloads of the five Qt signals, and the exact message texts.
- `discovery.dfy`: the scan's name filter.
- `session.dfy`: the handlers as pure state transitions, with the lemmas about them.
- `dashboard.dfy`: `TorqueDashboard` as a class. Each handler is a method, proved to change the fields exactly as its `Session` function says.
- `sensor_spec.dfy`: the firmware as transitions, the encoder, and the round trip with the decoder.
- `sensor.dfy`: the firmware globals as a class.

Anything that comes from outside this code is a parameter. That covers what
the BLE stack reports (the outcome of `connect()`, `ble_client.is_connected`,
each read's result, the scanned device list) and the two `millis()` readings
of a `loop()` pass. A handler returns the notifications it emits, in order. In
the trace functions (`Session.Run`, `SensorSpec.Run`), delivering a
notification to its slot is a separate input, `Deliver(e)`.

Where the code and its own stated intent disagree, the model follows the code:

- Connecting is not idempotent. `safe_connect_device` starts a new worker on every call, even while one is already running (`Session.SafeConnectRules`).
- The retry limit never takes effect. A retry happens only on a tick that still finds `is_connected` true. Only a "connected" status sets `is_connected`, and that same status resets `retry_count` to 0. So each lost connection gets at most one automatic retry, and after a failed retry nothing retries again until the next "connected" status (`Session.RetriesWithoutSuccess`). No reachable state has a `retry_count` above 1 (`Session.ReachableRetryCount`). The `max_retries = 3` field (Torque_dashboad.py:66) and the "Auto-retry attempt {n}/{max_retries}" log (Torque_dashboad.py:279) announce up to three attempts; the code makes at most one.
- The read loop's guard can fail quietly. The loop ends without any notification when the transport or a session flag turns false (`Session.ReadLoopShape`).
- A first connection streams only if its "connected" status is handled before the guard is first tested. The worker emits "connected" across threads and then tests `is_connected` with no `await` in between (Torque_dashboad.py:434-440). `Session.Attempt` and `Dashboard.TorqueDashboard.ConnectBleDevice` test the guard against the session state as it was before that status is handled. So, from a state that is not yet connected, an attempt that links yields only the "connected" status and no reading, unless that status was delivered earlier in the trace.
- One deadline covers the whole worker. The 30 s `wait_for` wraps both the connect and the read loop, so the deadline can end a running stream with the timeout error and a "failed" status (`Session.ReadResult.DeadlineExpired`).

## Model

| member | source | states |
|---|---|---|
| `LittleEndian.Decode` | Torque_dashboad.py:443 | the decoded value of n bytes is a natural number below 256^n |
| `LittleEndian.DecodeIsWeightedSum` | Torque_dashboad.py:443 | decoding equals the sum of `byte[i] * 256^i` over all bytes |
| `Discovery.DisplayName` | Torque_dashboad.py:359 | a missing or empty name reads as "Unknown"; any other name is kept |
| `Discovery.Contains` | Torque_dashboad.py:362 | `pattern in text` holds iff the pattern occurs at some position of the text |
| `Discovery.ScanBleDevices` | Torque_dashboad.py:348-373 | reports exactly one device, the first whose name contains "ESP32_To", and none of the later ones; reports nothing when no device matches; a scanner exception becomes the "BLE scan failed: " error |
| `Session.Classify` | Torque_dashboad.py:542-547 | a reading is High iff it is strictly above the threshold; equal to it is Normal |
| `Session.SafeConnectRules` | Torque_dashboad.py:391-409 | an attempt starts iff an address is known; without one the state is unchanged (so is `connection_active`) and the only event is the exact "No ESP32 address available - Please scan first" error; with one, every call starts an attempt and sets only `connection_active` |
| `Session.MonitorTickRules` | Torque_dashboad.py:265-290 | a tick changes nothing when the app is stopped, when `is_connected` is false, or when the transport is still up; a lost link clears both flags; a retry happens iff auto-retry is on and `retry_count < max_retries`, and it adds exactly one to the counter |
| `Session.StopSilencesReadLoop` | Torque_dashboad.py:437-440 | after an error, a "failed" status, a manual disconnect or a close, the read loop's guard fails, so no pass starts after the flag is cleared; a read already in flight past the guard still delivers its value |
| `Session.ReadLoopShape` | Torque_dashboad.py:436-448 | one decoded reading per successful pass, in read order, while link and flags hold; then at most the notifications that ended it (one read error, or the timeout error and "failed"); nothing at all when a session flag is false |
| `Session.AttemptRules` | Torque_dashboad.py:411-454 | the worker creates the client; readings come only after a "connected" status that opens its notifications; every attempt that does not link ends in "failed" and delivers no reading |
| `Session.ApplyWithoutSuccess` | Torque_dashboad.py:271-281 | apart from a "connected" status no input sets `is_connected`, and a retry needs it set and clears it |
| `Session.RetriesWithoutSuccess` | Torque_dashboad.py:271-281 | a trace with no "connected" status has at most one automatic retry, and none if it starts disconnected; so at most `max_retries` (3) |
| `Session.HandlerOutcomes` | Torque_dashboad.py:465-503 | "connected" sets both flags and clears the counter; "failed" and a manual disconnect clear both flags; a disconnect asks the transport iff a client exists (the same lemma also pins down errors, discovery and closing, cited on the class methods below) |
| `Session.ApplyRetryCount` | Torque_dashboad.py:278-281 | an input that is neither a "connected" status nor a discovery changes `retry_count` only by a retry, by exactly one, and only below `max_retries` |
| `Session.RetriesBoundedByCounter` | Torque_dashboad.py:278-281 | with no "connected" status and no discovery, `retry_count` grows by exactly the number of retries, which is at most `max_retries - retry_count` |
| `Session.ApplyKeepsRetryInvariant` | Torque_dashboad.py:466-476 | every handler keeps `retry_count <= 1`, and keeps it 0 while connected |
| `Session.ReachableRetryCount` | Torque_dashboad.py:278-281 | from a state with the invariant, every reachable state keeps it and has `retry_count < max_retries` |
| `Session.InitialKeepsRetryInvariant` | Torque_dashboad.py:35-68 | the initial state satisfies the retry invariant, has no address and is running |
| `Dashboard.TorqueDashboard.constructor` | Torque_dashboad.py:35-68 | running, both flags false, counter 0, auto-retry off, no address, `max_retries` 3 |
| `Dashboard.TorqueDashboard.OnDeviceFound` | Torque_dashboad.py:382-389 | stores the address and resets `retry_count` to 0, nothing else |
| `Dashboard.TorqueDashboard.SafeConnectDevice` | Torque_dashboad.py:391-409 | follows `Session.SafeConnect`; without an address `connection_active` is unchanged and the exact error is emitted |
| `Dashboard.TorqueDashboard.MonitorConnection` | Torque_dashboad.py:265-290 | follows `Session.MonitorTick`; a stopped app changes nothing; a retry adds one to a counter that was below the limit |
| `Dashboard.TorqueDashboard.OnConnectionStatus` | Torque_dashboad.py:465-484 | "connected" sets both flags and resets the counter; "failed" clears both flags; other texts change nothing |
| `Dashboard.TorqueDashboard.OnErrorOccurred` | Torque_dashboad.py:292-306 | any error clears both flags, nothing else |
| `Dashboard.TorqueDashboard.SafeDisconnectDevice` | Torque_dashboad.py:486-503 | clears both flags, and asks for a transport disconnect iff a client exists |
| `Dashboard.TorqueDashboard.ToggleAutoRetry` | Torque_dashboad.py:515-525 | flips `auto_retry`, nothing else |
| `Dashboard.TorqueDashboard.UpdateThreshold` | Torque_dashboad.py:592-596 | the new value becomes the threshold, nothing else |
| `Dashboard.TorqueDashboard.CloseEvent` | Torque_dashboad.py:93-115 | unless closing is forced: stops the app, clears both flags, disconnects a still-connected client |
| `Dashboard.TorqueDashboard.ForceCloseApp` | Torque_dashboad.py:652-657 | sets `force_close`, clears `app_running`; the close it triggers changes nothing more |
| `Dashboard.TorqueDashboard.OnDataReceived` | Torque_dashboad.py:535-550 | shows High iff the value is strictly above the threshold current at that moment |
| `Dashboard.TorqueDashboard.ReadLoop` | Torque_dashboad.py:436-448 | emits exactly `Session.ReadLoopEvents` for the object's own flags |
| `Dashboard.TorqueDashboard.ConnectBleDevice` | Torque_dashboad.py:411-454 | creates the client and emits exactly `Session.Attempt`'s notifications |
| `SensorSpec.EncodeDecode` | main.cpp:155-161 | decoding the four bytes gives the torque modulo 2^32: unchanged for 0 <= x < 2^32, x + 2^32 for a negative 32-bit x |
| `SensorSpec.TableRoundTrip` | main.cpp:15 | every table value reaches the dashboard unchanged |
| `SensorSpec.LoopStepRules` | main.cpp:116-153 | an update happens iff `(millis() - lastUpdate) mod 2^32 > 3000`; it takes `torqueArray[currentIndex]`, moves the index on by one with wrap-around, and stores the second clock reading; otherwise the index, value and stamp stay; the index stays in range; a payload is sent iff updating while connected, and it decodes to the value; advertising restarts iff old-connected and now disconnected; afterwards `oldDeviceConnected == deviceConnected` |
| `SensorSpec.IndexAdvances` | main.cpp:135 | along any trace the index ends `(start + updates) mod arraySize` |
| `SensorSpec.EmittedCycles` | main.cpp:120-135 | the k-th update takes `torqueArray[(start + k) mod arraySize]` |
| `SensorSpec.FromPowerOn` | main.cpp:15-17 | from power-on the k-th update takes `torqueArray[k mod arraySize]` |
| `Sensor.TorqueSensor.constructor` | main.cpp:7-19 | the globals' initial values, with the index in range |
| `Sensor.TorqueSensor.OnConnect` | main.cpp:27-31 | sets `deviceConnected`, nothing else |
| `Sensor.TorqueSensor.OnDisconnect` | main.cpp:33-36 | clears `deviceConnected`, nothing else |
| `Sensor.TorqueSensor.SendTorqueData` | main.cpp:155-164 | four bytes, `byte[i] = (currentTorque >> 8*i) & 0xFF`, decoding back to `currentTorque` modulo 2^32 |
| `Sensor.TorqueSensor.Loop` | main.cpp:116-153 | follows `SensorSpec.LoopStep`, keeps the index in range, and leaves `oldDeviceConnected == deviceConnected` |

## Left out

- The PyQt presentation: labels, buttons, styles, the console, the theme, the graph and the slider widget itself. `update_threshold` is kept as the store of a new threshold value.
- SQLite storage, pandas, CSV export and history plots (`init_database`, `save_torque_value`, `update_graph`, `export_csv`, `plot_history`); these are I/O.
- Threads, asyncio loops, `asyncio.sleep(2.5)` and the timers' periods. Neither the 15 s scan deadline nor the 30 s connection deadline is modelled as time. The connection deadline is an input outcome: `ConnectTimedOut`, or `DeadlineExpired` on a read.
- Session.StopSilencesReadLoop: a pass that is already past the guard when a stop handler clears the flags still emits its reading (Torque_dashboad.py:442-444); the model evaluates the guard once per pass against a fixed state, so that in-flight reading is not represented.
- The interleaving of the UI thread with a running worker. `ReadLoop` evaluates its guard against the flags as they are for the whole call. Whether a queued "connected" notification has already been handled when the guard is first evaluated is up to the caller's order of inputs.
- `run_scan_safe`'s own notifications: the scan timeout error and the order of its `scan_completed` emissions, including the `finally` that always emits `True`. This is cross-thread delivery.
- The per-device `try/except continue` in the scan loop: reading a device's name cannot fail in the model.
- The Bleak and NimBLE calls themselves (scanning, connecting, reading, `disconnect`, `setValue`, `notify`, `startAdvertising`); their results are parameters and their effects are flags in the outputs. `run_disconnect_safe` does nothing that the model keeps.
- The firmware's `setup()`, `Serial` output, `printDeviceInfo`, `printTorqueArray` and `delay()`.
- `simulate_torque_data`, which draws a random value.
- `Sensor.TorqueSensor.Loop`: the BLE callbacks are not interleaved with a `loop()` pass, so `deviceConnected` is taken as constant during one pass.
- `Dashboard.TorqueDashboard.ReadLoop`: a finite list of read steps stands for the transport's behaviour; when the list runs out the loop stops, and the model says nothing beyond it.
- The unused fields `received_values`, `array_detection_active`, `scan_thread` and `connection_thread` play no part in any handler modelled here.
