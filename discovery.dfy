/**
 * The name filter of the dashboard's scan (`scan_ble_devices_safe`): walk the
 * devices the scanner reported, in order, and report the first whose name
 * contains the sensor's advertised name fragment.
 */
module Discovery {
  import opened Wrappers
  import opened Notifications

  /** The fragment of the firmware's advertised name the dashboard looks for. */
  const SensorNamePattern: string := "ESP32_To"

  /** A scan result as the scanner reports it; the name may be missing. */
  datatype Device = Device(address: string, name: Option<string>)

  /** What the scanner call itself produced: a device list, or an exception. */
  datatype DiscoverOutcome = Discovered(devices: seq<Device>) | DiscoverRaised(cause: string)

  /** `device.name or "Unknown"`: a missing or empty name reads as "Unknown". */
  function DisplayName(d: Device): (n: string)
    ensures n != ""
    ensures d.name.Some? && d.name.value != "" ==> n == d.name.value
    ensures d.name.None? || d.name.value == "" ==> n == "Unknown"
  {
    if d.name.None? || d.name.value == "" then "Unknown" else d.name.value
  }

  /** `pattern` occurs in `text` starting at position k. */
  predicate OccursAt(text: string, pattern: string, k: int) {
    0 <= k && k + |pattern| <= |text| && text[k..k + |pattern|] == pattern
  }

  /** Python's `pattern in text`: some occurrence exists. */
  function Contains(text: string, pattern: string): (b: bool)
    ensures b <==> exists k :: OccursAt(text, pattern, k)
    decreases |text|
  {
    if |pattern| > |text| then false
    else if text[..|pattern|] == pattern then assert OccursAt(text, pattern, 0); true
    else
      var rest := Contains(text[1..], pattern);
      assert forall k :: OccursAt(text[1..], pattern, k) <==> OccursAt(text, pattern, k + 1) by {
        forall k ensures OccursAt(text[1..], pattern, k) <==> OccursAt(text, pattern, k + 1) {
          if 0 <= k && k + |pattern| <= |text[1..]| {
            assert text[1..][k..k + |pattern|] == text[k + 1..k + 1 + |pattern|];
          }
        }
      }
      assert !OccursAt(text, pattern, 0);
      assert forall k :: OccursAt(text, pattern, k) ==> OccursAt(text[1..], pattern, k - 1);
      rest
  }

  /** The filter the scan applies to each device. */
  predicate IsSensor(d: Device) {
    Contains(DisplayName(d), SensorNamePattern)
  }

  /**
   * The scan loop. Reports the first device whose name matches and stops
   * there; reports nothing when no device matches; turns a scanner exception
   * into an error notification.
   */
  method ScanBleDevices(outcome: DiscoverOutcome) returns (found: Option<nat>, events: seq<Event>)
    ensures outcome.DiscoverRaised? ==>
      found == None && events == [ErrorOccurred(ScanFailedPrefix + outcome.cause)]
    ensures outcome.Discovered? && found.Some? ==>
      var ds := outcome.devices; var i := found.value;
      i < |ds| && IsSensor(ds[i]) &&
      (forall j :: 0 <= j < i ==> !IsSensor(ds[j])) &&
      events == [DeviceFound(ds[i].address, DisplayName(ds[i]))]
    ensures outcome.Discovered? && found.None? ==>
      (forall j :: 0 <= j < |outcome.devices| ==> !IsSensor(outcome.devices[j])) &&
      events == []
  {
    if outcome.DiscoverRaised? {
      return None, [ErrorOccurred(ScanFailedPrefix + outcome.cause)];
    }
    var devices := outcome.devices;
    found, events := None, [];
    var i := 0;
    while i < |devices|
      invariant 0 <= i <= |devices|
      invariant forall j :: 0 <= j < i ==> !IsSensor(devices[j])
    {
      var name := DisplayName(devices[i]);
      if Contains(name, SensorNamePattern) {
        found, events := Some(i), [DeviceFound(devices[i].address, name)];
        return;
      }
      i := i + 1;
    }
  }
}
