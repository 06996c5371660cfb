# Smart Health Watch BLE client — Dafny model

This project models the Bluetooth Low Energy logic of the Android smart-watch
companion app (`MainActivity.kt`). The app scans for a watch and connects to its
Heart Rate service. It subscribes to three characteristics and decodes their
notifications into three stored readings: heart rate, temperature and SpO2.

The model is purely functional:

- **Common**: an optional value, the unsigned byte, and the device identity
  (a device is its hardware address).
- **Text**: the Kotlin string operations the app relies on. These are
  `Char.equals(ignoreCase)`, `contains` with and without `ignoreCase`,
  `uppercase`, and the decimal rendering of a count.
- **Uuids**: the four identifiers. Each is a 16-bit short form (180D, 2A37,
  2A6E, 2A5F) expanded into the Bluetooth Base UUID, as described in the
  Bluetooth Core Specification, Vol 3, Part B, section 2.5.1.
- **Decoders**: the payload decoders. `ParseHeartRate` reads the Heart Rate
  Measurement layout of section 3.1 of the Bluetooth Heart Rate Service
  specification. `ParseTemperature` reads a signed 16-bit count of hundredths,
  or keeps the raw word of a 32-bit float. `ParseSpO2` reads byte 0. None of
  them fails: missing input reads as zero.
- **Scan**: the first-match-wins inclusion rule of the scan callback, and the
  de-duplicating device list built over a run of callbacks. The list is
  compared with an independent reference definition, the first sighting of
  each qualifying device.
- **Session**: the session state, which is the GATT handle plus three readings.
  It covers notification dispatch by UUID substring, the outcome of service
  discovery, and the reset done by `disconnect`.

Platform answers are inputs to the model. These are the two permission checks,
whether service discovery succeeded, which characteristics the service has, and
which notification-enabling attempts fail.

The model follows the code, which departs from the Bluetooth characteristic
formats in these ways:

- The decoders return 0 for short or empty payloads. They do not report an
  absent reading.
- A heart-rate payload announcing a 16-bit value reads a missing byte as 0.
  It is not rejected.
- SpO2 is byte 0 read unsigned. It does not follow the PLX Continuous
  Measurement layout of 0x2A5F.
- Service discovery has a fourth outcome besides "ready", "service not found"
  and "discovery failed". When
  `hasBluetoothConnectPermission()` is true (always the case before Android 12)
  but the runtime check of BLUETOOTH_CONNECT is refused, discovery emits no
  report at all (`Session.SilentWhenRuntimeCheckRefuses`).
- `disconnect` drops the handle without closing it when the permission check
  fails.

## Model

| member | source | states |
|---|---|---|
| Decoders.ParseHeartRate | app/src/main/java/com/example/smart_health_watch_android/MainActivity.kt:647-664 | an empty payload gives 0; the result is below 65536, and below 256 when flag bit 0 is clear |
| Decoders.HeartRate8RoundTrip | app/src/main/java/com/example/smart_health_watch_android/MainActivity.kt:651-652 | with flag bit 0 clear, the unsigned byte 1 is the heart rate, whatever the other flag bits and the bytes that follow |
| Decoders.HeartRate16RoundTrip | app/src/main/java/com/example/smart_health_watch_android/MainActivity.kt:653-658 | with flag bit 0 set, bytes 1–2 read as a little-endian 16-bit value; every value below 65536 survives encode then decode |
| Decoders.HeartRateIgnoresTail | app/src/main/java/com/example/smart_health_watch_android/MainActivity.kt:647-664 | bytes past index 2 never change the heart rate |
| Decoders.HeartRateShortPadsWithZero | app/src/main/java/com/example/smart_health_watch_android/MainActivity.kt:652-656 | a payload missing byte 1 or byte 2 decodes as if zero bytes were appended, so it is not rejected |
| Decoders.HeartRateExamples | app/src/main/java/com/example/smart_health_watch_android/MainActivity.kt:647-664 | [00 4B] and [01 4B 00] give 75, [01 01 01] gives 257, [01 4B] gives 75, and a lone flags byte gives 0 |
| Decoders.Sint16LE | app/src/main/java/com/example/smart_health_watch_android/MainActivity.kt:673 | two little-endian bytes read as a signed short lie in [-32768, 32767] |
| Decoders.Word32LE | app/src/main/java/com/example/smart_health_watch_android/MainActivity.kt:670 | the float branch reads the first four bytes as a little-endian word that fits in 32 bits |
| Decoders.Word32RoundTrip | app/src/main/java/com/example/smart_health_watch_android/MainActivity.kt:670 | every 32-bit word, split into its four little-endian bytes, reads back as itself |
| Decoders.Word32Bytes | app/src/main/java/com/example/smart_health_watch_android/MainActivity.kt:670 | each of the four bytes can be recovered from the word at its own position, so the read loses nothing |
| Decoders.ParseTemperature | app/src/main/java/com/example/smart_health_watch_android/MainActivity.kt:666-680 | under 2 bytes gives 0; 2 or 3 bytes give a signed 16-bit count of hundredths; 4 or more bytes give a 32-bit float bit pattern |
| Decoders.TemperatureRoundTrip | app/src/main/java/com/example/smart_health_watch_android/MainActivity.kt:671-674 | every signed 16-bit hundredths value, encoded little-endian and optionally followed by a third byte, decodes back to itself |
| Decoders.TemperatureBytesRoundTrip | app/src/main/java/com/example/smart_health_watch_android/MainActivity.kt:671-674 | every 2-byte payload is the encoding of its reading, so the 2-byte decoder is a bijection onto the signed 16-bit range |
| Decoders.TemperatureExamples | app/src/main/java/com/example/smart_health_watch_android/MainActivity.kt:666-680 | [2E 09] gives 23.50 degrees, also with a third byte; [DA FD] gives -5.50; 0 or 1 byte gives 0 |
| Decoders.ParseSpO2 | app/src/main/java/com/example/smart_health_watch_android/MainActivity.kt:682-691 | an empty payload gives 0; every result lies in [0, 255] |
| Decoders.SpO2RoundTrip | app/src/main/java/com/example/smart_health_watch_android/MainActivity.kt:684-685 | byte 0 is the reading and later bytes are ignored |
| Decoders.SpO2Examples | app/src/main/java/com/example/smart_health_watch_android/MainActivity.kt:682-691 | [62] gives 98; [FF 62] gives 255 because nothing clamps to 100; [] gives 0 |
| Uuids.Expand | app/src/main/java/com/example/smart_health_watch_android/MainActivity.kt:33-37 | a short form placed in the base UUID gives a UUID inside the base range |
| Uuids.ExpandIsUuidText | app/src/main/java/com/example/smart_health_watch_android/MainActivity.kt:33-37 | every expansion is a well-formed 8-4-4-4-12 upper-case UUID text |
| Uuids.ShortFormOfExpand | app/src/main/java/com/example/smart_health_watch_android/MainActivity.kt:33-37 | expanding a short form and taking it back out gives the short form |
| Uuids.ExpandOfShortForm | app/src/main/java/com/example/smart_health_watch_android/MainActivity.kt:33-37 | every UUID in the base range is the expansion of its short form |
| Uuids.ServiceUuidIsExpansion | app/src/main/java/com/example/smart_health_watch_android/MainActivity.kt:34 | the service identifier is the base expansion of 180D |
| Uuids.HeartRateUuidIsExpansion | app/src/main/java/com/example/smart_health_watch_android/MainActivity.kt:35 | the heart-rate identifier is the base expansion of 2A37 |
| Uuids.TemperatureUuidIsExpansion | app/src/main/java/com/example/smart_health_watch_android/MainActivity.kt:36 | the temperature identifier is the base expansion of 2A6E |
| Uuids.SpO2UuidIsExpansion | app/src/main/java/com/example/smart_health_watch_android/MainActivity.kt:37 | the SpO2 identifier is the base expansion of 2A5F |
| Uuids.UppercaseOfLowercase | app/src/main/java/com/example/smart_health_watch_android/MainActivity.kt:621 | `UUID.toString()` renders an identifier in lower case, and upper-casing that rendering gives back the canonical upper-case text, for every well-formed UUID |
| Uuids.ContainsShortPattern | app/src/main/java/com/example/smart_health_watch_android/MainActivity.kt:625-637 | a 4-character pattern with no dash, whose first character never occurs outside the short form, is found in the expansion exactly when it is the short form |
| Text.PrefixOccursIgnoreCase | app/src/main/java/com/example/smart_health_watch_android/MainActivity.kt:442-443 | a name containing a pattern, ignoring case, also contains every prefix of that pattern |
| Text.Decimal | app/src/main/java/com/example/smart_health_watch_android/MainActivity.kt:462 | the device count is rendered as decimal digits with no leading zero |
| Text.DecimalRoundTrip | app/src/main/java/com/example/smart_health_watch_android/MainActivity.kt:462 | reading the rendered digits back gives the count |
| Scan.MatchedRule | app/src/main/java/com/example/smart_health_watch_android/MainActivity.kt:440-457 | the first-match `when` behind `shouldInclude`: the ESP rule fires exactly for names containing "ESP" in any case (the "ESP32" test adds nothing); the health-service rule fires exactly for the other advertisements listing the service UUID, compared ignoring case as at lines 446-448 (`Scan.AdvertisesHealthService`); the fallback signal rule only ever admits the "Unknown Device" placeholder. `Scan.ShouldInclude` is "some rule fires", and `InclusionIsDisjunction`, `InclusionMonotoneInRssi` and `PlaceholderNeedsStrongerSignal` describe it |
| Scan.Esp32Subsumed | app/src/main/java/com/example/smart_health_watch_android/MainActivity.kt:442-443 | every name containing "ESP32", ignoring case, also contains "ESP" |
| Scan.InclusionIsDisjunction | app/src/main/java/com/example/smart_health_watch_android/MainActivity.kt:440-457 | the first-match chain admits a result exactly when its name contains "ESP", or it advertises the service, or it is named and above -70 dBm, or it is above -60 dBm |
| Scan.IncludedRegardlessOfRssi | app/src/main/java/com/example/smart_health_watch_android/MainActivity.kt:441-448 | an "ESP" name or an advertised service UUID equal to the service UUID, ignoring case, admits the device at any RSSI |
| Scan.InclusionMonotoneInRssi | app/src/main/java/com/example/smart_health_watch_android/MainActivity.kt:450-454 | an admitted result stays admitted with a stronger signal |
| Scan.PlaceholderHasNoEsp | app/src/main/java/com/example/smart_health_watch_android/MainActivity.kt:442-443 | the placeholder name "Unknown Device" never contains "ESP", ignoring case |
| Scan.PlaceholderNeedsStrongerSignal | app/src/main/java/com/example/smart_health_watch_android/MainActivity.kt:450-454 | with no name or service match, the "Unknown Device" placeholder needs more than -60 dBm and any other name needs more than -70 dBm |
| Scan.PlaceholderAtModerateSignal | app/src/main/java/com/example/smart_health_watch_android/MainActivity.kt:450-454 | at -65 dBm an unnamed, non-advertising device is dropped while a named one is kept |
| Scan.OnScanResult | app/src/main/java/com/example/smart_health_watch_android/MainActivity.kt:434-463 | a callback appends and reports its device exactly when the device qualifies and is not yet listed; otherwise the list is unchanged and nothing is reported; the list never gains a duplicate |
| Scan.RunScan | app/src/main/java/com/example/smart_health_watch_android/MainActivity.kt:431-463 | over any run of callbacks the list only grows by appending, stays duplicate-free, and gets one report per appended device, carrying the list and count at that moment |
| Scan.QualifiedDevices | app/src/main/java/com/example/smart_health_watch_android/MainActivity.kt:440-459 | a device is among the qualifying sightings exactly when some callback for it qualifies |
| Scan.FirstSightings | app/src/main/java/com/example/smart_health_watch_android/MainActivity.kt:459-460 | the first occurrence of each device keeps exactly the same devices, without duplicates |
| Scan.WithoutMembers | app/src/main/java/com/example/smart_health_watch_android/MainActivity.kt:459 | removing the already-listed devices keeps exactly the others |
| Scan.RunScanIsFirstSightings | app/src/main/java/com/example/smart_health_watch_android/MainActivity.kt:459-462 | the list a scan builds is the starting list followed by the first sightings, in order, of the qualifying devices not already listed |
| Scan.ScanFromEmpty | app/src/main/java/com/example/smart_health_watch_android/MainActivity.kt:431-463 | starting from an empty list, a scan lists the first sighting of each qualifying device, in arrival order |
| Scan.ScanFromEmptyMembers | app/src/main/java/com/example/smart_health_watch_android/MainActivity.kt:431-463 | starting from an empty list, a scan lists a device exactly when some callback for it qualifies |
| Session.Classify | app/src/main/java/com/example/smart_health_watch_android/MainActivity.kt:621-643 | the heart-rate, temperature and SpO2 characteristic UUIDs, in any letter case, select heart rate, temperature and SpO2 respectively; the service UUID selects nothing |
| Session.ConstantPatterns | app/src/main/java/com/example/smart_health_watch_android/MainActivity.kt:625-637 | each subscribed identifier contains its own pattern and none of the patterns tested before it; the service identifier contains none of the three |
| Session.HeartRateTextClassifies | app/src/main/java/com/example/smart_health_watch_android/MainActivity.kt:621-643 | the lower-case text of the heart-rate characteristic selects heart rate, as `toString().uppercase()` and the `contains` chain do |
| Session.TemperatureTextClassifies | app/src/main/java/com/example/smart_health_watch_android/MainActivity.kt:621-643 | the lower-case text of the temperature characteristic selects temperature, as `toString().uppercase()` and the `contains` chain do |
| Session.SpO2TextClassifies | app/src/main/java/com/example/smart_health_watch_android/MainActivity.kt:621-643 | the lower-case text of the SpO2 characteristic selects SpO2, as `toString().uppercase()` and the `contains` chain do |
| Session.ServiceTextClassifies | app/src/main/java/com/example/smart_health_watch_android/MainActivity.kt:621-643 | the lower-case text of the service identifier selects no reading, as `toString().uppercase()` and the `contains` chain do |
| Session.OnCharacteristicChanged | app/src/main/java/com/example/smart_health_watch_android/MainActivity.kt:619-645 | a notification never touches the handle; a missing characteristic or an unmatched UUID changes nothing and reports nothing; a matched one reports Ready with the updated readings |
| Session.HeartRateNotification | app/src/main/java/com/example/smart_health_watch_android/MainActivity.kt:625-630 | a 2A37 notification sets the heart rate to the decoded payload and leaves the other two readings and the handle unchanged |
| Session.TemperatureNotification | app/src/main/java/com/example/smart_health_watch_android/MainActivity.kt:631-636 | a 2A6E notification without 2A37 sets the temperature and leaves the rest unchanged |
| Session.SpO2Notification | app/src/main/java/com/example/smart_health_watch_android/MainActivity.kt:637-642 | a 2A5F notification without 2A37 or 2A6E sets SpO2 and leaves the rest unchanged |
| Session.AtMostOneReadingChanges | app/src/main/java/com/example/smart_health_watch_android/MainActivity.kt:619-645 | no notification changes more than one reading |
| Session.PatternsInExpansion | app/src/main/java/com/example/smart_health_watch_android/MainActivity.kt:625-637 | in an expanded identifier, each of 2A37, 2A6E and 2A5F is found exactly when it is the short form |
| Session.Disconnect | app/src/main/java/com/example/smart_health_watch_android/MainActivity.kt:707-723 | on every path the handle is dropped and the three readings are reset to zero; the handle is closed only when the permission is granted and a handle was held |
| Session.DisconnectIdempotent | app/src/main/java/com/example/smart_health_watch_android/MainActivity.kt:707-723 | a second disconnect closes nothing and leaves the state unchanged |
| Session.DisconnectForgetsEverything | app/src/main/java/com/example/smart_health_watch_android/MainActivity.kt:718-722 | the state after a disconnect depends neither on the state before nor on the permission |
| Session.EnableNotifications | app/src/main/java/com/example/smart_health_watch_android/MainActivity.kt:570-577 | a characteristic ends up subscribed exactly when the service has it and enabling it does not fail |
| Session.OnServicesDiscovered | app/src/main/java/com/example/smart_health_watch_android/MainActivity.kt:560-601 | a non-success status or `hasBluetoothConnectPermission()` false gives exactly one "Service discovery failed" report, not connected, and no subscriptions (a refused runtime check gives no report, see `SilentWhenRuntimeCheckRefuses`); subscriptions need the service |
| Session.ReadyIffServicePresent | app/src/main/java/com/example/smart_health_watch_android/MainActivity.kt:560-601 | discovery ends in "Connected - Ready" with the current readings exactly when it succeeded, the permission is held and the service is present |
| Session.ReportsIgnoreSubscriptions | app/src/main/java/com/example/smart_health_watch_android/MainActivity.kt:570-581 | the reports do not depend on which characteristics exist or which enabling attempts fail |
| Session.MissingServiceNeverReady | app/src/main/java/com/example/smart_health_watch_android/MainActivity.kt:582-585 | a missing service gives a single "Health service not found" report, not connected, and never Ready |
| Session.SubscriptionsIndependent | app/src/main/java/com/example/smart_health_watch_android/MainActivity.kt:575-577 | each present characteristic is subscribed unless its own enabling fails |
| Session.SilentWhenRuntimeCheckRefuses | app/src/main/java/com/example/smart_health_watch_android/MainActivity.kt:561-587 | when the declared permission holds but the runtime check refuses, a successful discovery emits nothing |

## Left out

- The 32-bit float temperature branch (line 670) is kept only as its raw bit pattern (`Float32Bits`). Converting that word to a float value is floating point and is not modelled.
- Decoders.ParseTemperature: the 2-byte result is exact hundredths, not the float `temp / 100.0f`. Float rounding is not modelled.
- Text.CharEqualsIgnoreCase: case folding covers ASCII letters, long s, dotless i and the Kelvin sign. Other non-ASCII case mappings are treated as identity. They cannot change a match against the ASCII patterns "ESP32", "ESP" and the service UUID.
- Text.Uppercase: upper-cases character by character, with no locale and no length-changing mappings. `UUID.toString()` only produces hex digits and dashes, so the locale never matters. Java characters are UTF-16 units while Dafny's are Unicode scalar values.
- A notification whose characteristic value is null would throw before decoding. The model takes the value as a byte sequence.
- The `try`/`catch` blocks around the decoders are not modelled: indexing a non-null array inside its bounds never throws.
- The exception handlers of `onServicesDiscovered` (lines 588-596) are not modelled. They only fire if a platform getter throws, and the model has no platform.
- Jetpack Compose UI and display formatting (lines 184-385, 730-741) are rendering only.
- Permission requests and Bluetooth-enable launchers (lines 53-182) are platform calls. Their answers are boolean inputs.
- `startScan` guards (lines 418-429), its scan settings, start call and error paths (lines 479-494, 511-520), the 15-second scan timer posted through `Handler`/`Looper` (lines 495-510) and its completion message (lines 504-509) are timing and platform set-up.
- The `runOnUiThread` hand-offs (lines 540-555, 566-599, 627-641) are thread scheduling. The model delivers each report at once, in callback order.
- Session.OnCharacteristicChanged: the report carries the readings as they stand when the notification is handled. The app builds the report inside `runOnUiThread` (lines 627-641) and reads the three fields later, on the UI thread. A notification or a disconnect in between would show newer readings or zeros there. Thread interleaving is not modelled.
- Session.ReadyIffServicePresent: the "Connected - Ready" report carries the readings as they stand at the end of discovery. The app reads them later, on the UI thread (lines 579-581), for the same reason as above.
- Session.Disconnect: with the permission granted and a handle present, the model always closes the handle. In the app, an exception from `gatt.disconnect()` (caught at lines 713-717) skips `close()`. Platform exceptions are not modelled.
- `onScanFailed` error-code mapping (lines 467-476) depends on platform constants.
- `getDeviceName` / `getDeviceTypeString` (lines 388-416) wrap platform getters. The device name is an input string, with "Unknown Device" as the placeholder.
- `connectToDevice` and `onConnectionStateChange` (lines 522-558, 694-704) issue `connectGatt` and `discoverServices` and relay platform connection events. The GATT handle is an input of the session state.
- `enableNotification` (lines 604-617) writes the descriptor through the platform. It is an opaque step that may fail, and the failing characteristics are an input.
