# BaseOTA network provisioning core, in Dafny

This project models the decision logic of a small ESP32 firmware. The firmware
joins a WiFi network using credentials stored on its LittleFS volume. When it has
no usable credentials it hosts its own access point, `ESP32_AP`. It exposes two
HTTP endpoints that save or clear the credentials. It rewrites the credentials
after an over-the-air (OTA) update. It also answers a three-command web console.

The model covers `src/ControllerWebServer.cpp` (class `ControllerWebServerClass`)
and the command handler and `loop()` of `src/main.cpp`. The radio, the
filesystem and the restart are abstracted:

- The LittleFS volume is a `map<string, string>` from path to contents plus a
  mounted flag (`Platform.Board`). An open or remove fails when the volume is
  unmounted, when a file to read or remove is missing, or when the call's
  `fault` parameter says so. The `fault` parameter stands for every failure the
  model does not explain (flash errors, no free handle).
- `ESP.restart()` sets a terminal `restarted` flag. Every method of the
  controller and of the sketch requires that it is not yet set, because nothing
  runs after a restart. `WiFi.eraseAP()` sets
  a flag too.
- `WiFi.status()` is an oracle. The `i`-th call returns `polls[i]` (connected or
  not). `_connectToWiFi` reads the status once per loop test and once more after
  the loop, so it needs at most twelve readings.
- `millis()` readings are parameters of type `Millis`, the range of a 32-bit
  `unsigned long`. Subtraction wraps modulo 2^32.
- The web console is a sequence of `Output` entries: text, the free-RAM report,
  and the elapsed-time line. Number formatting is not modelled.
- The files are: `arduino_text.dfy` (`trim`, `readStringUntil`, `println`),
  `credential_record.dfy` (the two-line credentials file), `board.dfy` (the
  device state), `web_server.dfy` (the controller class), `sketch.dfy`
  (`main.cpp`), and `scenarios.dfy` (save, clear or update, then restart and boot
  again).

Behaviours of the code worth knowing:

- `/savewifi` checks only that both form fields are present. Empty values are
  written, and the next boot then falls back to the access point (`SaveThenBoot`).
- The file is written with `println`, so each line ends in CR LF. The read
  removes the CR again with `trim`.
- An unrecognised console message is echoed, and the timing line follows it.
- `_onOTAEnd(true)` does not restart the device itself. It always rewrites the
  file from the in-memory fields.
- `/clearwifi` restarts before its 200 reply is sent, so no reply is observed.

## Model

| member | source | states |
|---|---|---|
| `ArduinoText.Trim` | src/ControllerWebServer.cpp:28-30 | the trimmed field has no whitespace at either end |
| `ArduinoText.TrimmedIsFixpoint` | src/ControllerWebServer.cpp:29-30 | a value without surrounding whitespace is unchanged by `trim` |
| `ArduinoText.TrimDropsCarriageReturn` | src/ControllerWebServer.cpp:84-85 | the CR that `println` appends is removed again by `trim` |
| `ArduinoText.TrimBlank` | src/ControllerWebServer.cpp:29-30 | a line of only whitespace trims to the empty string |
| `ArduinoText.TrimIsSlice` | src/ControllerWebServer.cpp:29-30 | the trimmed value is a contiguous slice of the line, and everything cut off before and after it is whitespace |
| `ArduinoText.TrimKeepsAbsence` | src/ControllerWebServer.cpp:29-30 | trimming never introduces a character, so a trimmed line still holds no line feed |
| `ArduinoText.ReadStringUntil` | src/ControllerWebServer.cpp:25-26 | the line read holds no terminator; the input is that line, the terminator and the rest, or the whole input when no terminator is left |
| `ArduinoText.ReadStringUntilSplits` | src/ControllerWebServer.cpp:25-26 | reading stops at the first line feed and leaves exactly what follows it |
| `CredentialRecord.EncodeLineFeeds` | src/ControllerWebServer.cpp:84-85 | the record written by `Encode` (name, CR LF, password, CR LF) is four characters longer than its fields, ends in a line feed, and holds exactly two line feeds more than the fields |
| `CredentialRecord.Decode` | src/ControllerWebServer.cpp:25-30 | the two parsed fields are always single trimmed lines |
| `CredentialRecord.DecodeTwoLines` | src/ControllerWebServer.cpp:25-30 | only the first two lines are read; anything after the second line feed is ignored |
| `CredentialRecord.DecodeEncode` | src/ControllerWebServer.cpp:84-85 | writing any two line-feed-free values and reading back yields the trimmed values, whatever follows the record |
| `CredentialRecord.DecodeEncodeClean` | src/ControllerWebServer.cpp:75-89 | clean, non-whitespace-padded values are read back exactly, and the read succeeds iff both are non-empty |
| `CredentialRecord.SingleLineIsInvalid` | src/ControllerWebServer.cpp:25-34 | a one-line file, with or without its line feed, has an empty password and the read fails |
| `CredentialRecord.BlankPasswordIsInvalid` | src/ControllerWebServer.cpp:29-34 | a whitespace-only second line makes the read fail |
| `CredentialRecord.LineFeedInSsidIsMisread` | src/ControllerWebServer.cpp:156-161 | a saved network name holding a line feed is read back, successfully, as a different identity |
| `CredentialRecord.LineFeedInPasswordIsTruncated` | src/ControllerWebServer.cpp:156-161 | a saved password holding a line feed is read back, successfully, cut at that line feed, so the identity differs from what was saved |
| `WebServer.WaitAttempts` | src/ControllerWebServer.cpp:53-59 | the number of waits is at most 10, every earlier status reading was not connected, and fewer than 10 means the last one read was connected |
| `WebServer.ControllerWebServer.constructor` | src/ControllerWebServer.cpp:9-14 | both in-memory fields start empty and the radio is off |
| `WebServer.Loaded` | src/ControllerWebServer.cpp:16-35 | the identity held after a read: the parsed record when the file opens, the previous one otherwise; a clean identity stays clean either way |
| `WebServer.ControllerWebServer.ReadWiFiCredentials` | src/ControllerWebServer.cpp:16-35 | the reference parameters end up holding the loaded identity (untouched when the file cannot be opened); the result is true iff the file opened and both are non-empty, which is the success condition `Begin` branches on |
| `WebServer.ControllerWebServer.StartAPMode` | src/ControllerWebServer.cpp:37-46 | the device hosts the access point `ESP32_AP` |
| `WebServer.ControllerWebServer.ConnectToWiFi` | src/ControllerWebServer.cpp:48-73 | the wait ends after at most 10 attempts, and the device is then joined to the given network if the final status reading is connected, or hosts the access point otherwise, never neither |
| `WebServer.ControllerWebServer.WriteWiFiCredentials` | src/ControllerWebServer.cpp:75-89 | the result is whether the file opens; on success the file is replaced by the CR LF record, on failure the volume is unchanged |
| `WebServer.ControllerWebServer.Begin` | src/ControllerWebServer.cpp:207-219 | the fields hold the loaded identity and stay clean; the device ends in station mode with that identity exactly when the read succeeds and the bounded connection succeeds, and in access-point mode otherwise |
| `WebServer.ControllerWebServer.OnOTAEnd` | src/ControllerWebServer.cpp:91-105 | on failure nothing changes; on success the file is rewritten from the in-memory identity (and reads back as exactly that identity) and the volume is unmounted, with no restart |
| `WebServer.ControllerWebServer.HandleSaveWiFi` | src/ControllerWebServer.cpp:154-176 | a missing field gives 400 and a write failure gives 500, both with no change and no restart; otherwise the record is written, 200 is sent, the volume is unmounted and the device restarts |
| `WebServer.ControllerWebServer.HandleClearWiFi` | src/ControllerWebServer.cpp:178-190 | a failed remove gives 500 with the file kept and no restart; a successful one erases the station configuration and restarts before any reply |
| `WebServer.ControllerWebServer.HtmlProcessor` | src/ControllerWebServer.cpp:193-199 | the placeholder `WIFI_SSID` becomes the network name and every other placeholder the empty string; the password is never substituted |
| `MainSketch.Elapsed` | src/main.cpp:104 | unsigned 32-bit subtraction: the plain difference when the clock has not wrapped, the difference plus 2^32 when it has |
| `MainSketch.ElapsedAcrossWrap` | src/main.cpp:104-107 | a clock advanced by `d` milliseconds (less than one turn of the counter) shows exactly `d` elapsed, wrapped or not |
| `MainSketch.TickDueIff` | src/main.cpp:104 | the gate opens iff strictly more than 50 ms have really passed since the last service, across the counter wrap too |
| `MainSketch.Classify` | src/main.cpp:54-65 | each command is selected iff the message equals its name exactly (so `help\n` and `Help` select nothing) |
| `MainSketch.Dispatch` | src/main.cpp:52-71 | the message is echoed first whatever it is; `help` then lists `freeram` and `reboot`; only `reboot` restarts, and it prints nothing more; anything else adds only the timing line |
| `MainSketch.Sketch.constructor` | src/main.cpp:99 | `lasttick` starts at 0, nothing printed, server not yet serviced |
| `MainSketch.Sketch.OnMessage` | src/main.cpp:46-72 | the console gains exactly the dispatched output; the volume is unmounted and the device restarted iff the message is `reboot` |
| `MainSketch.Sketch.Loop` | src/main.cpp:101-110 | when the gate is open the web server is serviced once and `lasttick` takes the second clock reading; otherwise nothing changes |
| `Scenarios.PowerCycle` | src/main.cpp:75-80 | after mounting the surviving files, boot reads the stored record and ends in station mode iff it is valid and the connection comes up |
| `Scenarios.SaveThenBoot` | src/ControllerWebServer.cpp:154-176 | for submitted values without a line feed: after `/savewifi` and the restart, the device joins the submitted network (trimmed) iff both trimmed values are non-empty and the connection comes up, else hosts the access point; values holding a line feed are accepted too but read back differently (`LineFeedInSsidIsMisread`, `LineFeedInPasswordIsTruncated`) |
| `Scenarios.ClearThenBoot` | src/ControllerWebServer.cpp:178-190 | after a successful `/clearwifi` and the restart, the device always hosts the access point |
| `Scenarios.UpdateThenBoot` | src/ControllerWebServer.cpp:91-105 | a successful update followed by a boot restores exactly the identity that was in memory |

## Left out

- Radio behaviour: `WiFi.begin`, `WiFi.softAP` and `WiFi.eraseAP` are modelled only as the mode they select or a flag. IP addresses and `showIp` are not modelled.
- The fallback mode: on the device, `softAP` after `WiFi.begin` runs station and access point together. The model records only that the access point was started.
- LittleFS internals: partial writes, a failing `close`, and flash wear are not modelled. The whole file is read at once and then parsed.
- A failing `LittleFS.begin()` at boot is not modelled in `Scenarios.PowerCycle`, which always mounts. `Platform.Board` itself does take the mounted flag as a parameter.
- Route registration, `_handlePage`, static file serving, `_handleGetJsonFile` and `_saveJsonToFile` are library I/O around JSON serialisation, so they are left out.
- The ElegantOTA transfer and its own restart are left out; only the outcome passed to `_onOTAEnd` is modelled.
- The WebSerial transport is left out, and so is the delivery of a message in several chunks.
- `PrintFreeRam` reads the heap allocator. Its three figures are a parameter.
- Serial logging, `Logger.Log`, `delay`, `InitDevices` and the commented-out FreeRTOS tasks are left out.
- Multiple arguments of the same name in one request are left out. The form fields are a map.
- `MainSketch.Classify`: Arduino's `String::equals` compares with `strcmp`, so a message with an embedded NUL byte after `help` would also match. Messages are modelled as NUL-free text.
- `MainSketch.Dispatch`: the timing line prints the unsigned difference with `%d`. Its signed reinterpretation, for intervals over 2^31 ms, is not modelled.
- `isspace` is taken in the C locale. Characters beyond ASCII are never whitespace in the model.
- `Scenarios.SaveThenBoot`: states the next boot only for submitted values without a line feed. The handler accepts line feeds too; what such values read back as is stated separately by `CredentialRecord.LineFeedInSsidIsMisread` and `CredentialRecord.LineFeedInPasswordIsTruncated`.
