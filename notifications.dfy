/**
 * The payloads of the dashboard's five Qt signals (`BLESignals`): what the
 * scan and connection workers emit and the dashboard's handlers consume, and
 * the exact texts the core puts in them.
 */
module Notifications {

  datatype Event =
    | DataReceived(value: int)
    | ConnectionStatus(status: string)
    | DeviceFound(address: string, name: string)
    | ErrorOccurred(message: string)
    | ScanCompleted(success: bool)

  const StatusConnected: string := "connected"
  const StatusFailed: string := "failed"

  const NoAddressMessage: string := "No ESP32 address available - Please scan first"
  const ConnectTimeoutMessage: string := "Connection timeout - ESP32 may not be responding"
  const ConnectFailedPrefix: string := "BLE connection failed: "
  const ReadErrorPrefix: string := "Data read error: "
  const ScanFailedPrefix: string := "BLE scan failed: "
}
