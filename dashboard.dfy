/**
 * `TorqueDashboard` as an object: its session fields and the handlers that
 * update them, each proved to change the fields exactly as the matching
 * function of module Session says. Transport answers (`is_connected`, the
 * outcome of `connect()`, the reads) arrive as parameters; the notifications
 * a handler emits are returned in emission order.
 */
module Dashboard {
  import opened Wrappers
  import opened LittleEndian
  import opened Notifications
  import Session

  class TorqueDashboard {
    var appRunning: bool
    var forceClose: bool
    var isConnected: bool
    var connectionActive: bool
    var retryCount: nat
    const maxRetries: nat := Session.MaxRetries
    var autoRetry: bool
    /** The module-level `SENSOR_ADDRESS`. */
    var sensorAddress: Option<string>
    /** Whether `ble_client` has been created. */
    var hasClient: bool
    /** The module-level `THRESHOLD`. */
    var threshold: int

    /** The fields as a value, for the specification functions. */
    function State(): Session.SessionState
      reads this
    {
      Session.SessionState(appRunning, forceClose, isConnected, connectionActive,
                           retryCount, autoRetry, sensorAddress, hasClient, threshold)
    }

    constructor ()
      ensures State() == Session.Initial()
      ensures appRunning && !isConnected && !connectionActive && retryCount == 0 && !autoRetry
      ensures sensorAddress == None && maxRetries == 3
    {
      appRunning, forceClose := true, false;
      isConnected, connectionActive := false, false;
      retryCount, autoRetry := 0, false;
      sensorAddress, hasClient := None, false;
      threshold := Session.DefaultThreshold;
    }

    method OnDeviceFound(address: string, name: string)
      modifies this
      ensures State() == Session.OnDeviceFound(old(State()), address, name)
      ensures sensorAddress == Some(address) && retryCount == 0
    {
      sensorAddress := Some(address);
      retryCount := 0;
    }

    method SafeConnectDevice() returns (events: seq<Event>, attemptStarted: bool)
      modifies this
      ensures var r := Session.SafeConnect(old(State()));
        State() == r.next && events == r.events && attemptStarted == r.attemptStarted
      ensures attemptStarted <==> Session.HasAddress(old(State()))
      ensures !attemptStarted ==> connectionActive == old(connectionActive) &&
                                  events == [ErrorOccurred(NoAddressMessage)]
    {
      if sensorAddress.None? || sensorAddress.value == "" {
        return [ErrorOccurred(NoAddressMessage)], false;
      }
      connectionActive := true;
      events, attemptStarted := [], true;
    }

    method MonitorConnection(transportConnected: bool) returns (events: seq<Event>, retried: bool, attemptStarted: bool)
      modifies this
      ensures var r := Session.MonitorTick(old(State()), transportConnected);
        State() == r.next && events == r.events && retried == r.retried && attemptStarted == r.attemptStarted
      ensures !old(appRunning) ==> State() == old(State()) && !retried
      ensures retried ==> retryCount == old(retryCount) + 1 && old(retryCount) < maxRetries
    {
      events, retried, attemptStarted := [], false, false;
      if !appRunning {
        return;
      }
      if isConnected && hasClient {
        if !transportConnected {
          isConnected := false;
          connectionActive := false;
          if autoRetry && retryCount < maxRetries {
            retryCount := retryCount + 1;
            retried := true;
            events, attemptStarted := SafeConnectDevice();
          }
        }
      }
    }

    method OnConnectionStatus(status: string)
      modifies this
      ensures State() == Session.OnConnectionStatus(old(State()), status)
      ensures status == StatusConnected ==> isConnected && connectionActive && retryCount == 0
      ensures status == StatusFailed ==> !isConnected && !connectionActive
    {
      if status == StatusConnected {
        isConnected := true;
        connectionActive := true;
        retryCount := 0;
      } else if status == StatusFailed {
        isConnected := false;
        connectionActive := false;
      }
    }

    method OnErrorOccurred(message: string)
      modifies this
      ensures State() == Session.OnErrorOccurred(old(State()), message)
      ensures !isConnected && !connectionActive
    {
      isConnected := false;
      connectionActive := false;
    }

    method SafeDisconnectDevice() returns (transportDisconnectStarted: bool)
      modifies this
      ensures var r := Session.SafeDisconnect(old(State()));
        State() == r.next && transportDisconnectStarted == r.transportDisconnectStarted
      ensures !isConnected && !connectionActive
    {
      isConnected := false;
      connectionActive := false;
      transportDisconnectStarted := hasClient;
    }

    method ToggleAutoRetry()
      modifies this
      ensures State() == Session.ToggleAutoRetry(old(State()))
      ensures autoRetry == !old(autoRetry)
    {
      autoRetry := !autoRetry;
    }

    method UpdateThreshold(value: int)
      modifies this
      ensures State() == Session.UpdateThreshold(old(State()), value)
    {
      threshold := value;
    }

    method CloseEvent(transportConnected: bool) returns (transportDisconnectStarted: bool)
      modifies this
      ensures var r := Session.CloseEvent(old(State()), transportConnected);
        State() == r.next && transportDisconnectStarted == r.transportDisconnectStarted
    {
      transportDisconnectStarted := false;
      if !forceClose {
        appRunning := false;
        isConnected := false;
        connectionActive := false;
        if hasClient && transportConnected {
          transportDisconnectStarted := SafeDisconnectDevice();
        }
      }
    }

    method ForceCloseApp()
      modifies this
      ensures State() == Session.ForceClose(old(State()))
      ensures !appRunning
    {
      forceClose := true;
      appRunning := false;
      var _ := CloseEvent(false);
    }

    /** `on_data_received`: how the reading is shown, against the threshold of the moment. */
    method OnDataReceived(value: int) returns (level: Session.Level)
      ensures level == Session.High <==> value > threshold
    {
      level := Session.Classify(value, threshold);
    }

    /**
     * The read loop of `connect_ble_device_safe`: read, decode and emit while
     * the transport is connected and the session flags hold.
     */
    method ReadLoop(steps: seq<Session.ReadStep>) returns (events: seq<Event>)
      ensures events == Session.ReadLoopEvents(Session.LoopFlags(State()), steps)
    {
      ghost var ok := Session.LoopFlags(State());
      events := [];
      var i := 0;
      while i < |steps| && steps[i].linkUp && isConnected && connectionActive && appRunning
        invariant 0 <= i <= |steps|
        invariant events + Session.ReadLoopEvents(ok, steps[i..]) == Session.ReadLoopEvents(ok, steps)
        decreases |steps| - i
      {
        match steps[i].result {
          case Payload(bytes) =>
            var torqueValue := Decode(bytes);
            events := events + [DataReceived(torqueValue)];
            assert steps[i..][1..] == steps[i + 1..];
          case ReadRaised(cause) =>
            events := events + [ErrorOccurred(ReadErrorPrefix + cause)];
            return;
          case DeadlineExpired =>
            events := events + [ErrorOccurred(ConnectTimeoutMessage), ConnectionStatus(StatusFailed)];
            return;
        }
        i := i + 1;
      }
    }

    /** `run_connection_safe`: one connection worker, from client creation to the end of its read loop. */
    method ConnectBleDevice(outcome: Session.ConnectOutcome, steps: seq<Session.ReadStep>) returns (events: seq<Event>)
      modifies this
      ensures var r := Session.Attempt(old(State()), outcome, steps);
        State() == r.next && events == r.events
    {
      ghost var before := State();
      hasClient := true;
      match outcome {
        case ConnectRaised(cause) =>
          events := [ErrorOccurred(ConnectFailedPrefix + cause), ConnectionStatus(StatusFailed)];
        case ConnectTimedOut =>
          events := [ErrorOccurred(ConnectTimeoutMessage), ConnectionStatus(StatusFailed)];
        case ConnectReturned(linked) =>
          if linked {
            assert Session.LoopFlags(State()) == Session.LoopFlags(before);
            var readings := ReadLoop(steps);
            events := [ConnectionStatus(StatusConnected)] + readings;
          } else {
            events := [ConnectionStatus(StatusFailed)];
          }
      }
    }
  }
}
