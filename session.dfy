/**
 * The dashboard's session bookkeeping as pure state transitions: one function
 * per event handler of `TorqueDashboard`, the connection worker's emitted
 * notifications, and the monitor timer's retry rule, with the properties the
 * handlers keep. The class in module Dashboard is proved to follow these
 * functions field for field.
 */
module Session {
  import opened Wrappers
  import opened LittleEndian
  import opened Notifications

  /** `self.max_retries`, fixed at 3 when the dashboard is built. */
  const MaxRetries: nat := 3
  /** The initial value of the global `THRESHOLD`. */
  const DefaultThreshold: int := 100

  /**
   * The fields the handlers read and write. `sensorAddress` is the global
   * `SENSOR_ADDRESS`, `threshold` the global `THRESHOLD`, and `hasClient`
   * says whether `self.ble_client` has been created.
   */
  datatype SessionState = SessionState(
    appRunning: bool,
    forceClose: bool,
    isConnected: bool,
    connectionActive: bool,
    retryCount: nat,
    autoRetry: bool,
    sensorAddress: Option<string>,
    hasClient: bool,
    threshold: int)

  /** The state `__init__` leaves behind. */
  function Initial(): SessionState {
    SessionState(appRunning := true, forceClose := false, isConnected := false,
                 connectionActive := false, retryCount := 0, autoRetry := false,
                 sensorAddress := None, hasClient := false, threshold := DefaultThreshold)
  }

  /** Python truthiness of `SENSOR_ADDRESS`: neither None nor empty. */
  predicate HasAddress(s: SessionState) {
    s.sensorAddress.Some? && s.sensorAddress.value != ""
  }

  /** The three session flags of the read loop's guard. */
  predicate LoopFlags(s: SessionState) {
    s.isConnected && s.connectionActive && s.appRunning
  }

  // ---------------------------------------------------------------- handlers

  /** `on_device_found`: remember the address, start counting retries afresh. */
  function OnDeviceFound(s: SessionState, address: string, name: string): SessionState {
    s.(sensorAddress := Some(address), retryCount := 0)
  }

  datatype ConnectResult = ConnectResult(next: SessionState, events: seq<Event>, attemptStarted: bool)

  /**
   * `safe_connect_device`: without an address, emit the error and change
   * nothing; otherwise mark the connection active and start a worker. There is
   * no guard against an attempt already in progress.
   */
  function SafeConnect(s: SessionState): ConnectResult {
    if !HasAddress(s) then ConnectResult(s, [ErrorOccurred(NoAddressMessage)], false)
    else ConnectResult(s.(connectionActive := true), [], true)
  }

  datatype TickResult = TickResult(next: SessionState, events: seq<Event>, retried: bool, attemptStarted: bool)

  /**
   * `monitor_connection`, one timer tick. `transportConnected` is what
   * `self.ble_client.is_connected` reports at the tick.
   */
  function MonitorTick(s: SessionState, transportConnected: bool): TickResult {
    if !s.appRunning then TickResult(s, [], false, false)
    else if s.isConnected && s.hasClient && !transportConnected then
      var lost := s.(isConnected := false, connectionActive := false);
      if s.autoRetry && s.retryCount < MaxRetries then
        var c := SafeConnect(lost.(retryCount := s.retryCount + 1));
        TickResult(c.next, c.events, true, c.attemptStarted)
      else TickResult(lost, [], false, false)
    else TickResult(s, [], false, false)
  }

  /** `on_connection_status`: only "connected" and "failed" change anything. */
  function OnConnectionStatus(s: SessionState, status: string): SessionState {
    if status == StatusConnected then s.(isConnected := true, connectionActive := true, retryCount := 0)
    else if status == StatusFailed then s.(isConnected := false, connectionActive := false)
    else s
  }

  /** `on_error_occurred`: every error drops the session flags. */
  function OnErrorOccurred(s: SessionState, message: string): SessionState {
    s.(isConnected := false, connectionActive := false)
  }

  datatype DisconnectResult = DisconnectResult(next: SessionState, transportDisconnectStarted: bool)

  /** `safe_disconnect_device`: drop the flags; ask the transport to disconnect if a client exists. */
  function SafeDisconnect(s: SessionState): DisconnectResult {
    DisconnectResult(s.(isConnected := false, connectionActive := false), s.hasClient)
  }

  /** `toggle_auto_retry`. */
  function ToggleAutoRetry(s: SessionState): SessionState {
    s.(autoRetry := !s.autoRetry)
  }

  /** `update_threshold`: the slider's value becomes the global threshold. */
  function UpdateThreshold(s: SessionState, value: int): SessionState {
    s.(threshold := value)
  }

  datatype CloseResult = CloseResult(next: SessionState, transportDisconnectStarted: bool)

  /**
   * `closeEvent`: unless a forced close is under way, stop the application and
   * drop the session flags, disconnecting a client that is still connected.
   */
  function CloseEvent(s: SessionState, transportConnected: bool): CloseResult {
    if s.forceClose then CloseResult(s, false)
    else
      var stopped := s.(appRunning := false, isConnected := false, connectionActive := false);
      if s.hasClient && transportConnected then
        var d := SafeDisconnect(stopped);
        CloseResult(d.next, d.transportDisconnectStarted)
      else CloseResult(stopped, false)
  }

  /** `force_close_app`: the close it triggers finds `force_close` set and changes nothing more. */
  function ForceClose(s: SessionState): SessionState {
    CloseEvent(s.(forceClose := true, appRunning := false), false).next
  }

  // ---------------------------------------------------------- classification

  datatype Level = Normal | High

  /** The label colour rule of `on_data_received`: high strictly above the threshold. */
  function Classify(value: int, threshold: int): (l: Level)
    ensures l == High <==> value > threshold
    ensures value == threshold ==> l == Normal
  {
    if value > threshold then High else Normal
  }

  // ------------------------------------------------------ connection worker

  /** What one `read_gatt_char` call produced, or the 30 s deadline expiring while it waited. */
  datatype ReadResult = Payload(bytes: seq<Byte>) | ReadRaised(cause: string) | DeadlineExpired

  /** One pass of the read loop: the transport's `is_connected` at the guard, then the read. */
  datatype ReadStep = ReadStep(linkUp: bool, result: ReadResult)

  /**
   * The notifications the read loop emits, given whether the session flags of
   * its guard hold. A read error ends the loop with one error; the deadline
   * ends the worker with the timeout error and a "failed" status.
   */
  function ReadLoopEvents(sessionOk: bool, steps: seq<ReadStep>): seq<Event>
    decreases |steps|
  {
    if steps == [] || !(steps[0].linkUp && sessionOk) then []
    else match steps[0].result
      case Payload(bytes) => [DataReceived(Decode(bytes))] + ReadLoopEvents(sessionOk, steps[1..])
      case ReadRaised(cause) => [ErrorOccurred(ReadErrorPrefix + cause)]
      case DeadlineExpired => [ErrorOccurred(ConnectTimeoutMessage), ConnectionStatus(StatusFailed)]
  }

  /** How the `connect()` call ended: an exception, the deadline, or a return with the link state. */
  datatype ConnectOutcome = ConnectRaised(cause: string) | ConnectTimedOut | ConnectReturned(linked: bool)

  datatype AttemptResult = AttemptResult(next: SessionState, events: seq<Event>)

  /**
   * `run_connection_safe` with `connect_ble_device_safe`: create the client,
   * connect, and on success announce "connected" and run the read loop.
   */
  function Attempt(s: SessionState, outcome: ConnectOutcome, steps: seq<ReadStep>): AttemptResult {
    var next := s.(hasClient := true);
    match outcome
    case ConnectRaised(cause) =>
      AttemptResult(next, [ErrorOccurred(ConnectFailedPrefix + cause), ConnectionStatus(StatusFailed)])
    case ConnectTimedOut =>
      AttemptResult(next, [ErrorOccurred(ConnectTimeoutMessage), ConnectionStatus(StatusFailed)])
    case ConnectReturned(linked) =>
      if linked then AttemptResult(next, [ConnectionStatus(StatusConnected)] + ReadLoopEvents(LoopFlags(s), steps))
      else AttemptResult(next, [ConnectionStatus(StatusFailed)])
  }

  // ------------------------------------------------------------- properties

  /** Connecting without an address starts nothing, changes nothing and reports the exact error;
      with an address every call starts an attempt, even one already in progress. */
  lemma SafeConnectRules(s: SessionState)
    ensures var r := SafeConnect(s);
      (r.attemptStarted <==> HasAddress(s)) &&
      (!HasAddress(s) ==> r.next == s && r.events == [ErrorOccurred(NoAddressMessage)]) &&
      (HasAddress(s) ==> r.next == s.(connectionActive := true) && r.events == [])
  {
  }

  /** The monitor tick's rules: inert when the application stopped or the session is not
      connected, inert while the transport is still up, and otherwise clears the flags and
      retries exactly when auto-retry is on and the counter is below the limit. */
  lemma MonitorTickRules(s: SessionState, transportConnected: bool)
    ensures var r := MonitorTick(s, transportConnected);
      var lost := s.appRunning && s.isConnected && s.hasClient && !transportConnected;
      (!s.appRunning ==> r == TickResult(s, [], false, false)) &&
      (!lost ==> r.next == s && r.events == [] && !r.retried && !r.attemptStarted) &&
      (r.retried <==> lost && s.autoRetry && s.retryCount < MaxRetries) &&
      (r.attemptStarted ==> r.retried) &&
      (r.next.retryCount == if r.retried then s.retryCount + 1 else s.retryCount) &&
      (lost ==> !r.next.isConnected && (r.next.connectionActive <==> r.attemptStarted))
  {
  }

  /** What "connected", "failed", an error, a manual disconnect and a close leave behind. */
  lemma HandlerOutcomes(s: SessionState, address: string, name: string, message: string, transportConnected: bool)
    ensures var c := OnConnectionStatus(s, StatusConnected);
      c.isConnected && c.connectionActive && c.retryCount == 0
    ensures var d := OnDeviceFound(s, address, name);
      d.sensorAddress == Some(address) && d.retryCount == 0 && d.isConnected == s.isConnected
    ensures !OnConnectionStatus(s, StatusFailed).isConnected && !OnConnectionStatus(s, StatusFailed).connectionActive
    ensures !OnErrorOccurred(s, message).isConnected && !OnErrorOccurred(s, message).connectionActive
    ensures !SafeDisconnect(s).next.isConnected && !SafeDisconnect(s).next.connectionActive
    ensures SafeDisconnect(s).transportDisconnectStarted <==> s.hasClient
    ensures !s.forceClose ==> !CloseEvent(s, transportConnected).next.appRunning
    ensures !ForceClose(s).appRunning
  {
  }

  /** After any of the stop paths the read loop's guard fails at its next evaluation,
      so no pass starts once the flag is cleared; a read already past the guard is
      not covered here, since the model evaluates the guard before each pass. */
  lemma StopSilencesReadLoop(s: SessionState, message: string, transportConnected: bool, steps: seq<ReadStep>)
    ensures ReadLoopEvents(LoopFlags(OnErrorOccurred(s, message)), steps) == []
    ensures ReadLoopEvents(LoopFlags(OnConnectionStatus(s, StatusFailed)), steps) == []
    ensures ReadLoopEvents(LoopFlags(SafeDisconnect(s).next), steps) == []
    ensures ReadLoopEvents(LoopFlags(ForceClose(s)), steps) == []
    ensures !s.forceClose ==> ReadLoopEvents(LoopFlags(CloseEvent(s, transportConnected).next), steps) == []
  {
  }

  /** The number of leading passes that deliver a reading. */
  function Streamed(sessionOk: bool, steps: seq<ReadStep>): (n: nat)
    ensures n <= |steps|
    decreases |steps|
  {
    if steps == [] || !(sessionOk && steps[0].linkUp && steps[0].result.Payload?) then 0
    else 1 + Streamed(sessionOk, steps[1..])
  }

  /** How the loop ends after its last reading: quietly when the guard fails, otherwise
      with the read error or with the timeout and "failed". */
  function LoopEnding(sessionOk: bool, rest: seq<ReadStep>): seq<Event> {
    if rest == [] || !(sessionOk && rest[0].linkUp) then []
    else match rest[0].result
      case ReadRaised(cause) => [ErrorOccurred(ReadErrorPrefix + cause)]
      case DeadlineExpired => [ErrorOccurred(ConnectTimeoutMessage), ConnectionStatus(StatusFailed)]
      case Payload(_) => []
  }

  /**
   * The read loop delivers exactly one decoded reading per successful pass, in
   * read order, while the transport and the session flags hold, and then at
   * most the notifications that ended it: one read error, or the timeout error
   * followed by "failed".
   */
  lemma {:induction false} ReadLoopShape(sessionOk: bool, steps: seq<ReadStep>)
    ensures var ev := ReadLoopEvents(sessionOk, steps);
      var n := Streamed(sessionOk, steps);
      n <= |ev| &&
      (forall k :: 0 <= k < n ==>
         steps[k].linkUp && steps[k].result.Payload? &&
         ev[k] == DataReceived(Decode(steps[k].result.bytes))) &&
      ev[n..] == LoopEnding(sessionOk, steps[n..])
    ensures !sessionOk ==> ReadLoopEvents(sessionOk, steps) == []
    decreases |steps|
  {
    if steps != [] && sessionOk && steps[0].linkUp && steps[0].result.Payload? {
      ReadLoopShape(sessionOk, steps[1..]);
      var ev := ReadLoopEvents(sessionOk, steps);
      var n := Streamed(sessionOk, steps);
      assert ev == [DataReceived(Decode(steps[0].result.bytes))] + ReadLoopEvents(sessionOk, steps[1..]);
      assert steps[n..] == steps[1..][n - 1..];
      forall k | 1 <= k < n
        ensures steps[k].linkUp && steps[k].result.Payload? &&
                ev[k] == DataReceived(Decode(steps[k].result.bytes))
      {
        assert steps[k] == steps[1..][k - 1];
      }
    }
  }

  /** Readings arrive only after a "connected" status that opens the attempt's notifications;
      every attempt that does not link ends with a "failed" status and delivers nothing. */
  lemma AttemptRules(s: SessionState, outcome: ConnectOutcome, steps: seq<ReadStep>)
    ensures var r := Attempt(s, outcome, steps);
      r.next == s.(hasClient := true) && |r.events| >= 1 &&
      (outcome == ConnectReturned(true) ==>
         r.events[0] == ConnectionStatus(StatusConnected) &&
         r.events[1..] == ReadLoopEvents(LoopFlags(s), steps)) &&
      (outcome != ConnectReturned(true) ==>
         r.events[|r.events| - 1] == ConnectionStatus(StatusFailed) &&
         forall k :: 0 <= k < |r.events| ==> !r.events[k].DataReceived?)
  {
  }

  // ------------------------------------------------------------------ traces

  /** Everything that can happen to the dashboard, one handler call at a time. */
  datatype Input =
    | Tick(transportConnected: bool)
    | Deliver(event: Event)
    | ConnectClicked
    | DisconnectClicked
    | AutoRetryToggled
    | ThresholdMoved(value: int)
    | AttemptRan(outcome: ConnectOutcome, steps: seq<ReadStep>)
    | CloseRequested(transportConnected: bool)
    | ForceCloseRequested

  /** The slot each notification is connected to; readings and scan completion only touch the UI. */
  function Dispatch(s: SessionState, e: Event): SessionState {
    match e
    case DataReceived(_) => s
    case ConnectionStatus(status) => OnConnectionStatus(s, status)
    case DeviceFound(address, name) => OnDeviceFound(s, address, name)
    case ErrorOccurred(message) => OnErrorOccurred(s, message)
    case ScanCompleted(_) => s
  }

  function Apply(s: SessionState, x: Input): SessionState {
    match x
    case Tick(tc) => MonitorTick(s, tc).next
    case Deliver(e) => Dispatch(s, e)
    case ConnectClicked => SafeConnect(s).next
    case DisconnectClicked => SafeDisconnect(s).next
    case AutoRetryToggled => ToggleAutoRetry(s)
    case ThresholdMoved(v) => UpdateThreshold(s, v)
    case AttemptRan(outcome, steps) => Attempt(s, outcome, steps).next
    case CloseRequested(tc) => CloseEvent(s, tc).next
    case ForceCloseRequested => ForceClose(s)
  }

  /** Whether the input is a monitor tick that fired an automatic retry. */
  predicate Retried(s: SessionState, x: Input) {
    x.Tick? && MonitorTick(s, x.transportConnected).retried
  }

  function Run(s: SessionState, xs: seq<Input>): SessionState
    decreases |xs|
  {
    if xs == [] then s else Run(Apply(s, xs[0]), xs[1..])
  }

  /** The number of automatic retries along a trace. */
  function Retries(s: SessionState, xs: seq<Input>): nat
    decreases |xs|
  {
    if xs == [] then 0
    else (if Retried(s, xs[0]) then 1 else 0) + Retries(Apply(s, xs[0]), xs[1..])
  }

  /** The one input that re-establishes a connected session. */
  predicate IsConnectedStatus(x: Input) {
    x == Deliver(ConnectionStatus(StatusConnected))
  }

  /** Without a "connected" notification, nothing sets `is_connected`, and a retry clears it. */
  lemma ApplyWithoutSuccess(s: SessionState, x: Input)
    requires !IsConnectedStatus(x)
    ensures Apply(s, x).isConnected ==> s.isConnected
    ensures Retried(s, x) ==> s.isConnected && !Apply(s, x).isConnected
  {
    if x.Deliver? && x.event.ConnectionStatus? {
      assert x.event.status != StatusConnected;
    }
  }

  /**
   * Since a retry needs a connected session and clears it, and only a
   * "connected" notification sets it again, a trace without one contains at
   * most one automatic retry, and none when it starts disconnected.
   */
  lemma {:induction false} RetriesWithoutSuccess(s: SessionState, xs: seq<Input>)
    requires forall i :: 0 <= i < |xs| ==> !IsConnectedStatus(xs[i])
    ensures Retries(s, xs) <= (if s.isConnected then 1 else 0)
    decreases |xs|
  {
    if xs != [] {
      ApplyWithoutSuccess(s, xs[0]);
      RetriesWithoutSuccess(Apply(s, xs[0]), xs[1..]);
    }
  }

  /** The inputs that reset the retry counter. */
  predicate ResetsRetries(x: Input) {
    IsConnectedStatus(x) || (x.Deliver? && x.event.DeviceFound?)
  }

  /** Without a reset, only a retry changes the counter, by one, and only below the limit. */
  lemma ApplyRetryCount(s: SessionState, x: Input)
    requires !ResetsRetries(x)
    ensures Apply(s, x).retryCount == if Retried(s, x) then s.retryCount + 1 else s.retryCount
    ensures Retried(s, x) ==> s.retryCount < MaxRetries
  {
    if x.Deliver? && x.event.ConnectionStatus? {
      assert x.event.status != StatusConnected;
    }
  }

  /**
   * The counter argument behind `max_retries`: along a trace without a reset,
   * every retry adds one to `retry_count` and nothing else changes it, so the
   * retries number at most `MaxRetries - retry_count`.
   */
  lemma {:induction false} RetriesBoundedByCounter(s: SessionState, xs: seq<Input>)
    requires s.retryCount <= MaxRetries
    requires forall i :: 0 <= i < |xs| ==> !ResetsRetries(xs[i])
    ensures Run(s, xs).retryCount == s.retryCount + Retries(s, xs)
    ensures Retries(s, xs) <= MaxRetries - s.retryCount
    decreases |xs|
  {
    if xs != [] {
      ApplyRetryCount(s, xs[0]);
      RetriesBoundedByCounter(Apply(s, xs[0]), xs[1..]);
    }
  }

  /** The retry counter as the handlers actually leave it: at most one, and zero while connected. */
  predicate RetryInvariant(s: SessionState) {
    s.retryCount <= 1 && (s.isConnected ==> s.retryCount == 0)
  }

  lemma ApplyKeepsRetryInvariant(s: SessionState, x: Input)
    requires RetryInvariant(s)
    ensures RetryInvariant(Apply(s, x))
  {
  }

  /** Every state reachable from the initial one has `retry_count <= 1 < max_retries`:
      the limit of three retries is never what stops a retry. */
  lemma {:induction false} ReachableRetryCount(s: SessionState, xs: seq<Input>)
    requires RetryInvariant(s)
    ensures RetryInvariant(Run(s, xs))
    ensures Run(s, xs).retryCount < MaxRetries
    decreases |xs|
  {
    if xs != [] {
      ApplyKeepsRetryInvariant(s, xs[0]);
      ReachableRetryCount(Apply(s, xs[0]), xs[1..]);
    }
  }

  lemma InitialKeepsRetryInvariant()
    ensures RetryInvariant(Initial()) && !HasAddress(Initial()) && Initial().appRunning
  {
  }
}
