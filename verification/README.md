# Smart aquaculture LED protocol, modelled in Dafny

The system is a small Meshtastic deployment.

- **Sensor/actuator firmware module.** Sensor nodes broadcast their readings
  every 30 seconds as a JSON text. An actuator node drives two LEDs from JSON
  commands and answers with a feedback JSON holding both LED states.
- **Raspberry Pi dashboard.** Shows the stored telemetry and sends LED commands
  from a two-checkbox form.

This project models the text protocol between these programs and the state the
firmware keeps:

- `Strings` models the Arduino `String` operations the handlers use: `indexOf`,
  `toLowerCase`, `startsWith`, `endsWith`, and reading a C string out of a
  payload buffer.
- `Mesh` models what the modules see of the Meshtastic node:
  - packets, the router and node database;
  - `strlcpy` into the payload buffer;
  - 32-bit `millis()` arithmetic;
  - an ordered trace of effects (pin writes, packets handed to the router,
    channel activations).
- `ActuatorNode` models `SensorActuatorModule.cpp`, the later module. It is a
  class with the fields `led1State`, `led2State`, `lastSend` and the `pskReady`
  latch. Its methods are proved against the handler's decision `LedVerdict`
  and the texts it sends.
- `SensorNode` models `sensoractuator.cpp`, the earlier module. It is compiled
  either as the sensor build or as the actuator build, with the `chReady`
  latch, the send timer and the `LED_TEMP` flash.
- `Dashboard` models `dashboard.php`:
  - the LED form encoding;
  - the fetch loop that fills the table, the chart and the latest row;
  - the normalisation of the LED columns for the chart and for the cells.
- `Protocol` relates the programs to each other:
  - the dashboard's command through the actuator's handler;
  - the actuator's feedback and sensor texts through its own handler;
  - both sensor texts through the earlier actuator build.

## Model

| member | source | states |
|---|---|---|
| `Strings.IndexOf` | pagaduan_sensoractuator/SensorActuatorModule.cpp:224-225 | -1 exactly when the start is past the end or the pattern occurs nowhere from it on; otherwise an occurrence at or after the start with none before it |
| `Strings.Search` | pagaduan_sensoractuator/SensorActuatorModule.cpp:234-235 | the scan from `k` returns -1 exactly when the pattern occurs nowhere from `k` on, otherwise the first occurrence at or after `k` |
| `Strings.StartsWith` | pagaduan_sensoractuator/SensorActuatorModule.cpp:208 | definition of `startsWith`; used by `ActuatorNode.LedVerdict` and stated for the dashboard's command in `Dashboard.LedPacketLayout` |
| `Strings.EndsWith` | pagaduan_sensoractuator/SensorActuatorModule.cpp:208 | definition of `endsWith`; its loss on a cut text is stated in `Protocol.CutLosesBrace` |
| `Strings.IndexOfFinds` | pagaduan_sensoractuator/SensorActuatorModule.cpp:218-219 | a search from 0 finds something exactly when the text contains the pattern, and what it finds is the first occurrence |
| `Strings.ToLower` | pagaduan_sensoractuator/SensorActuatorModule.cpp:214-215 | same length, every character mapped by the ASCII lowering, no upper-case letter left |
| `Strings.ToLowerConcat` | pagaduan_sensoractuator/SensorActuatorModule.cpp:214-215 | lowering distributes over concatenation |
| `Strings.ToLowerIdempotent` | pagaduan_sensoractuator/SensorActuatorModule.cpp:214-215 | lowering twice is lowering once |
| `Strings.ToLowerPrefix` | pagaduan_sensoractuator/SensorActuatorModule.cpp:214-215 | lowering a prefix gives the prefix of the lowered text |
| `Strings.LowerFixed` | pagaduan_sensoractuator/SensorActuatorModule.cpp:214-215 | a text without upper-case letters is left as it is by lowering |
| `Strings.LowerAvoids` | pagaduan_sensoractuator/SensorActuatorModule.cpp:214-215 | lowering never creates a non-letter character that was not there |
| `Strings.CString` | pagaduan_sensoractuator/SensorActuatorModule.cpp:203 | the text read from a buffer is a NUL-free prefix of it, stopped by a NUL when shorter than the buffer |
| `Strings.CStringConcat` | pagaduan_sensoractuator/SensorActuatorModule.cpp:203 | reading a NUL-free text followed by more bytes keeps the text and reads on |
| `Strings.CStringIdempotent` | pagaduan_sensoractuator/SensorActuatorModule.cpp:203 | reading the text out of its own result changes nothing |
| `Strings.CStringOfPrefix` | pagaduan_sensoractuator/SensorActuatorModule.cpp:203 | a prefix of a NUL-free text is read whole |
| `Mesh.WrappingSub` | pagaduan_sensoractuator/SensorActuatorModule.cpp:149 | `unsigned long` subtraction: adding the result back to `b` gives `a` modulo 2^32; plain difference without rollover, difference plus 2^32 with it |
| `Mesh.ElapsedAcrossRollover` | pagaduan_sensoractuator/SensorActuatorModule.cpp:149 | an interval below 2^32 ms is measured exactly even when `millis()` rolls over within it |
| `Mesh.Strlcpy` | pagaduan_sensoractuator/SensorActuatorModule.cpp:267-269 | the copied payload has at most size-1 characters and is a prefix of the source C string; it is the whole source when that fits, and exactly size-1 characters when it does not |
| `Mesh.ActivationsAppend` | pagaduan_sensoractuator/SensorActuatorModule.cpp:144 | channel activations of a trace add up over concatenation |
| `Mesh.LastLevelAppend` | pagaduan_sensoractuator/SensorActuatorModule.cpp:236 | the level a pin shows is its latest write; effects that do not write it leave it as it was |
| `Mesh.NoActivations` | pagaduan_sensoractuator/SensorActuatorModule.cpp:144 | effects without `setActiveByIndex` add no activation |
| `Mesh.NoWritesTo` | sensoractuator.cpp:203-205 | effects that never write a pin say nothing about its level |
| `ActuatorNode.RadioReady` | pagaduan_sensoractuator/SensorActuatorModule.cpp:94-103 | ready exactly when router and node database exist, the node number is nonzero and the queue's maxlen is nonzero |
| `ActuatorNode.LedVerdict` | pagaduan_sensoractuator/SensorActuatorModule.cpp:200-244 | definition of the handler's decision by occurrences; `ActuatorNode.LedVerdictByIndexOf` proves it equal to the handler's `indexOf` tests |
| `ActuatorNode.KeyedState` | pagaduan_sensoractuator/SensorActuatorModule.cpp:233-244 | definition of one LED's `indexOf` chain; its meaning is stated in `ActuatorNode.KeyedStateMeaning` |
| `ActuatorNode.TrueAfterKeyFrom` | pagaduan_sensoractuator/SensorActuatorModule.cpp:234-235 | with the key first at `pos`, "`true` occurs from the key on" is the same as `indexOf("true", pos) != -1` |
| `ActuatorNode.KeyedStateMeaning` | pagaduan_sensoractuator/SensorActuatorModule.cpp:233-244 | the `indexOf` chain for one LED gives no state when the quoted key is absent, else whether `true` occurs from the key's first occurrence on |
| `ActuatorNode.LedVerdictByIndexOf` | pagaduan_sensoractuator/SensorActuatorModule.cpp:200-244 | the handler's decision equals the `indexOf` tests in the order the code makes them: shape, feedback guard, key presence, then each key's state |
| `ActuatorNode.KeyValue` | pagaduan_sensoractuator/SensorActuatorModule.cpp:233-244 | the intended reading of one key: absent exactly when the key is, else on exactly when `:true` follows the key's first occurrence |
| `ActuatorNode.CorrectedLedVerdict` | pagaduan_sensoractuator/SensorActuatorModule.cpp:200-244 | the corrected handler rejects exactly what the original rejects, for the same reason, and sets the same LEDs |
| `ActuatorNode.CommandWrites` | pagaduan_sensoractuator/SensorActuatorModule.cpp:232-244 | definition of the pin writes of a command; `ActuatorNode.SensorActuatorModule.ApplyCommand` and `ActuatorNode.LedWrite` state what they leave on the pins |
| `ActuatorNode.FeedbackJson` | pagaduan_sensoractuator/SensorActuatorModule.cpp:257-260 | definition of the feedback text; its properties are in `Protocol.FeedbackLower`, `Protocol.FeedbackFitsBuffer`, `Protocol.FeedbackInjective` and `Protocol.FeedbackNeverCommand` |
| `ActuatorNode.SensorJson` | pagaduan_sensoractuator/SensorActuatorModule.cpp:175-180 | definition of the sensor text; its properties are in `Protocol.ActuatorSensorTextHead`, `Protocol.ActuatorSensorTextRecognised` and `Protocol.OwnSensorTextIgnored` |
| `ActuatorNode.TextPacket` | pagaduan_sensoractuator/SensorActuatorModule.cpp:270-272 | definition of the fields both senders set; what a receiver reads of it is stated in `Protocol.ReceivedIsPrefix` |
| `ActuatorNode.FeedbackEvents` | pagaduan_sensoractuator/SensorActuatorModule.cpp:254-275 | definition of the effects of `sendLedStateBack`; its properties are in `ActuatorNode.SendEventsQuiet` and `ActuatorNode.SensorActuatorModule.SendLedStateBack` |
| `ActuatorNode.SensorDataEvents` | pagaduan_sensoractuator/SensorActuatorModule.cpp:158-195 | definition of the effects of `sendSensorData`; its properties are in `ActuatorNode.SendEventsQuiet` and `ActuatorNode.SensorActuatorModule.SendSensorData` |
| `ActuatorNode.SendEventsQuiet` | pagaduan_sensoractuator/SensorActuatorModule.cpp:158-195 | the trigger pulse and the sends of sensor data and feedback neither activate a channel nor write an LED pin |
| `ActuatorNode.LedWrite` | pagaduan_sensoractuator/SensorActuatorModule.cpp:236 | after writing an LED pin it shows HIGH exactly for state on, and the channel count and the other LED pin are unchanged |
| `ActuatorNode.SensorActuatorModule.constructor` | pagaduan_sensoractuator/SensorActuatorModule.cpp:108-113 | both LEDs off, `lastSend` 0, latch clear, nothing happened yet |
| `ActuatorNode.SensorActuatorModule.Setup` | pagaduan_sensoractuator/SensorActuatorModule.cpp:118-135 | writes LED1 then LED2 LOW; both states off |
| `ActuatorNode.SensorActuatorModule.Loop` | pagaduan_sensoractuator/SensorActuatorModule.cpp:140-153 | the latch never clears and is set once the radio is ready, activating channel 0 exactly then; sensor data is sent, and `lastSend` restamped, only when latched and the wrapped elapsed time is at least 30000 ms; the LED states are untouched |
| `ActuatorNode.SensorActuatorModule.SendSensorData` | pagaduan_sensoractuator/SensorActuatorModule.cpp:158-195 | nothing when the radio is not ready; else the trigger pulse, then one broadcast of the sensor text cut to the buffer if a packet was allocated |
| `ActuatorNode.SensorActuatorModule.HandleIncomingPacket` | pagaduan_sensoractuator/SensorActuatorModule.cpp:200-249 | a rejected packet changes nothing and sends nothing; an accepted command sets exactly the LEDs whose keys are present, writes their pins LED1 first, then attempts one feedback send with both new states; the pins always show the held states |
| `ActuatorNode.SensorActuatorModule.ApplyCommand` | pagaduan_sensoractuator/SensorActuatorModule.cpp:232-244 | each LED whose key is present takes its keyed state and its pin is written; an absent key leaves its LED alone |
| `ActuatorNode.SensorActuatorModule.UpdateLed1` | pagaduan_sensoractuator/SensorActuatorModule.cpp:233-237 | LED1's branch: state and pin follow the key, LED2 untouched |
| `ActuatorNode.SensorActuatorModule.UpdateLed2` | pagaduan_sensoractuator/SensorActuatorModule.cpp:240-244 | LED2's branch: state and pin follow the key, LED1 untouched |
| `ActuatorNode.SensorActuatorModule.SendLedStateBack` | pagaduan_sensoractuator/SensorActuatorModule.cpp:254-275 | nothing when the radio is not ready or no packet is allocated; else one broadcast of the feedback text cut to the buffer; the states are unchanged |
| `SensorNode.RadioReady` | sensoractuator.cpp:97-102 | ready exactly when router and node database exist, the node number is nonzero and the queue's maxlen is nonzero |
| `SensorNode.IsSensorMsg` | sensoractuator.cpp:196-200 | true exactly when the text contains `"temp"`, `"humidity"`, `"lux"` or `"distance"`, quotes included, case as written |
| `SensorNode.SensorJson` | sensoractuator.cpp:161-166 | definition of the quoted-value sensor text; its properties are in `Protocol.SensorTextHead` and `Protocol.SensorTextRecognised` |
| `SensorNode.SensorPacket` | sensoractuator.cpp:176-182 | the packet is a broadcast text on channel 0, neither encrypted nor acknowledged, and its hop limit is the router's own when it set one, else 3 |
| `SensorNode.SensorDataEvents` | sensoractuator.cpp:143-185 | definition of the effects of `sendSensorData`; its shape is stated in `SensorNode.SensorDataEventsShape` |
| `SensorNode.SensorDataEventsShape` | sensoractuator.cpp:143-185 | nothing when the radio is not ready; else the trigger pulse, and a fourth effect exactly when a packet was allocated: a broadcast text whose payload is a prefix of the sensor text that fits the buffer |
| `SensorNode.PulseUntouched` | sensoractuator.cpp:152-156 | the trigger pulse neither activates a channel nor writes `LED_TEMP` |
| `SensorNode.SendUntouched` | sensoractuator.cpp:184 | a send neither activates a channel nor writes `LED_TEMP` |
| `SensorNode.SensorActuatorModule.constructor` | sensoractuator.cpp:104-107 | `lastSend` 0, latch clear, nothing happened yet |
| `SensorNode.SensorActuatorModule.Setup` | sensoractuator.cpp:109-123 | the actuator build writes `LED_TEMP` LOW; the sensor build writes no pin |
| `SensorNode.SensorActuatorModule.Loop` | sensoractuator.cpp:125-140 | the latch never clears and is set once the radio is ready, activating channel 0 exactly then; the sensor build sends, and restamps `lastSend`, whenever the wrapped elapsed time is at least 30000 ms, latched or not; the actuator build never sends |
| `SensorNode.SensorActuatorModule.SendSensorData` | sensoractuator.cpp:143-185 | the effects are those of `SensorDataEvents`; the latch and `LED_TEMP` are untouched |
| `SensorNode.SensorActuatorModule.HandleIncoming` | sensoractuator.cpp:189-207 | a text that is a sensor message appends exactly HIGH then LOW on `LED_TEMP`, leaving it LOW; anything else writes nothing |
| `Dashboard.HandleLedForm` | raspberrypi/webpage/dashboard.php:23-30 | a packet is produced exactly for a POST with `send_leds`, each LED true exactly when its checkbox field was submitted |
| `Dashboard.LedPacket` | raspberrypi/webpage/dashboard.php:27-30 | definition of the `json_encode` output; its layout and injectivity are in `Dashboard.LedPacketLayout` and `Dashboard.LedPacketInjective` |
| `Dashboard.LedPacketLayout` | raspberrypi/webpage/dashboard.php:27-30 | the command starts with `{`, ends with `}`, and carries each value right after its key |
| `Dashboard.LedPacketInjective` | raspberrypi/webpage/dashboard.php:27-30 | different checkbox states give different commands |
| `Dashboard.ChartLed` | raspberrypi/webpage/dashboard.php:82-83 | null exactly for NULL; otherwise 0 or 1, and 1 exactly for `'t'`, `'true'`, `'1'` and the integer 1 |
| `Dashboard.LedCell` | raspberrypi/webpage/dashboard.php:375-390 | `On` exactly for `'t'`, `Off` exactly for `'f'`, blank exactly for anything else |
| `Dashboard.BoolColumnAgrees` | raspberrypi/webpage/dashboard.php:82-83 | for a boolean column the chart shows 1 and the cell On, or 0 and Off |
| `Dashboard.CellMatchesChart` | raspberrypi/webpage/dashboard.php:375-390 | a cell that says On charts as 1, and one that says Off charts as 0 |
| `Dashboard.OnInChartBlankInCell` | raspberrypi/webpage/dashboard.php:457-476 | the values charted as on but left blank in the cells are exactly `'true'`, `'1'` and the integer 1 |
| `Dashboard.LoadRows` | raspberrypi/webpage/dashboard.php:70-85 | the table holds the fetched rows in order, the chart one point per row in the same order, and the latest row is null exactly when nothing was fetched, else the last row; with rows in ascending time order, as the query at line 60 sorts them, no table row is later than the latest row |
| `Dashboard.PointOf` | raspberrypi/webpage/dashboard.php:78-84 | the point keeps the row's time; each reading is null exactly when NULL in the row and otherwise the row's value (standing for its float cast); each LED column is the row's value normalised by `Dashboard.ChartLed` |
| `Dashboard.TableLedCells` | raspberrypi/webpage/dashboard.php:375-390 | one pair of LED cells per row, in row order |
| `Dashboard.LatestLedCells` | raspberrypi/webpage/dashboard.php:439-476 | the panel's LED cells exist exactly when there is a latest row |
| `Dashboard.LatestPanelIsLastTableLine` | raspberrypi/webpage/dashboard.php:457-476 | the panel's LED cells repeat the table's last line |
| `Protocol.PacketLower` | raspberrypi/webpage/dashboard.php:27-30 | the dashboard's command is unchanged by the actuator's lowering |
| `Protocol.PacketKeys` | raspberrypi/webpage/dashboard.php:27-30 | `"led1"` first occurs right after the brace, `"led2"` right after the comma |
| `Protocol.PacketShape` | pagaduan_sensoractuator/SensorActuatorModule.cpp:207-215 | the dashboard's command is read whole, passes the `{...}` check and is already lower case |
| `Protocol.PacketNoFeedback` | pagaduan_sensoractuator/SensorActuatorModule.cpp:218-222 | the dashboard's command never trips the feedback guard |
| `Protocol.PacketKeyIndexes` | pagaduan_sensoractuator/SensorActuatorModule.cpp:224-225 | the handler finds `"led1"` at 1 and `"led2"` just after the comma |
| `Protocol.PacketTrueFromFirstKey` | pagaduan_sensoractuator/SensorActuatorModule.cpp:234-235 | from `"led1"` on, `true` occurs exactly when either LED was ticked |
| `Protocol.PacketTrueFromSecondKey` | pagaduan_sensoractuator/SensorActuatorModule.cpp:241-242 | from `"led2"` on, `true` occurs exactly when LED2 was ticked |
| `Protocol.DashboardCommandRoundTrip` | pagaduan_sensoractuator/SensorActuatorModule.cpp:233-244 | every dashboard command is accepted; LED2 is set as ticked, LED1 on when either box was ticked |
| `Protocol.OtherCommandsAsSent` | pagaduan_sensoractuator/SensorActuatorModule.cpp:233-244 | unless only LED2 was ticked, both LEDs are set as ticked |
| `Protocol.FalseTrueLightsBoth` | pagaduan_sensoractuator/SensorActuatorModule.cpp:234-235 | `{"led1":false,"led2":true}` turns both LEDs on; the corrected reading sets LED1 off, LED2 on |
| `Protocol.FirstValue` | raspberrypi/webpage/dashboard.php:28 | `:true` follows `"led1"` exactly when LED1 was ticked |
| `Protocol.SecondValue` | raspberrypi/webpage/dashboard.php:29 | `:true` follows `"led2"` exactly when LED2 was ticked |
| `Protocol.CorrectedCommandRoundTrip` | pagaduan_sensoractuator/SensorActuatorModule.cpp:232-244 | with the corrected reading every dashboard command sets both LEDs exactly as ticked |
| `Protocol.FeedbackLower` | pagaduan_sensoractuator/SensorActuatorModule.cpp:257-260 | the feedback text is unchanged by lowering |
| `Protocol.FeedbackMentionsItself` | pagaduan_sensoractuator/SensorActuatorModule.cpp:258 | the feedback text holds `feedbackled1` at index 2 |
| `Protocol.FeedbackCString` | pagaduan_sensoractuator/SensorActuatorModule.cpp:257-260 | the feedback text holds no NUL and is read whole |
| `Protocol.FeedbackWholeIsEcho` | pagaduan_sensoractuator/SensorActuatorModule.cpp:218-222 | a whole feedback text is rejected by the feedback guard |
| `Protocol.CutLosesBrace` | pagaduan_sensoractuator/SensorActuatorModule.cpp:267-268 | a text whose only `}` is its last character no longer ends with `}` once cut short |
| `Protocol.ShapeRejected` | pagaduan_sensoractuator/SensorActuatorModule.cpp:207-211 | a text packet that does not end with `}` once read is rejected as not JSON |
| `Protocol.FeedbackCutIsNotJson` | pagaduan_sensoractuator/SensorActuatorModule.cpp:207-211 | a feedback text cut short by the buffer fails the `{...}` check |
| `Protocol.FeedbackNeverCommand` | pagaduan_sensoractuator/SensorActuatorModule.cpp:218-222 | the module's own feedback is never obeyed, whatever the buffer size: feedback when whole, not JSON when cut |
| `Protocol.FeedbackFitsBuffer` | pagaduan_sensoractuator/SensorActuatorModule.cpp:257-268 | the feedback text is at most 43 characters and a buffer of 44 or more carries it whole |
| `Protocol.FeedbackInjective` | pagaduan_sensoractuator/SensorActuatorModule.cpp:257-260 | different LED states give different feedback texts |
| `Protocol.ReceivedIsPrefix` | pagaduan_sensoractuator/SensorActuatorModule.cpp:187-189 | what a receiver reads from a copied payload is a prefix of the text sent |
| `Protocol.HeadSurvives` | sensoractuator.cpp:173-174 | a NUL-free head of the text reaches the receiver whole when the buffer has room for it |
| `Protocol.SensorTextHead` | sensoractuator.cpp:161-162 | the sensor build's text starts with `{"temp"` |
| `Protocol.ActuatorSensorTextHead` | pagaduan_sensoractuator/SensorActuatorModule.cpp:175-176 | the later module's sensor text starts with `{"temp"` |
| `Protocol.TempHeadRecognised` | sensoractuator.cpp:196-200 | a text starting `{"temp"` is a sensor message once 8 bytes fit the buffer |
| `Protocol.SensorTextRecognised` | sensoractuator.cpp:161-166 | the sensor build's text is recognised by the actuator build |
| `Protocol.ActuatorSensorTextRecognised` | pagaduan_sensoractuator/SensorActuatorModule.cpp:175-180 | the later module's sensor text is recognised by the earlier actuator build |
| `Protocol.SensorJsonLacksKey` | pagaduan_sensoractuator/SensorActuatorModule.cpp:175-180 | the lowered sensor text holds no quoted key its literal parts lack |
| `Protocol.OwnSensorTextIgnored` | pagaduan_sensoractuator/SensorActuatorModule.cpp:224-230 | the later module's own sensor text, whole or cut, is never taken for an LED command |

## Left out

- SQL, HTML and Chart.js: the connection, the query text, the markup and the
  chart drawing in `dashboard.php`. The fetched rows are an input.
- The Meshtastic CLI call and the `htmlspecialchars` escaping
  (`dashboard.php` lines 33-45). The model ends at the command text that the
  CLI is asked to send.
- Delivery over the mesh: the payload a node sends is taken as the payload
  another node receives.
- `messageLogger.py`, `import_jsonl_to_db.py`, the other PHP pages and the
  Python scripts under `Mobile Node Ideas` are not part of this model.
- The DHT11 driver (`DHT11.h`), `analogRead` and `pulseIn`. The writes
  `DHT11::read` makes to its data pin are not in the trace. The distance
  arithmetic, the NAN and -1 sentinels, and `String(x, 1)` formatting are
  floating point and library formatting. Each reading is the already
  formatted string (`Mesh.Readings`).
- `Serial` logging, `delay`, `delayMicroseconds` and `pinMode` are not effects
  in the trace. That includes the 250 ms between HIGH and LOW on `LED_TEMP`.
- `applyLedState`, `parseJsonCommand`, `sendLedFeedback` and `sendJson` are
  declared in `SensorActuatorModule.h` (lines 92-95) but never defined.
- `millis()` is read twice in each `loop()`: once for the test and once for the
  new `lastSend`. The two readings are the inputs `nowCheck` and `nowStamp`.
- The function-local statics `pskReady` and `chReady` are fields, because the
  firmware holds a single instance.
- The router and node-database facts `radioReady` tests are one snapshot
  (`Mesh.Radio`) per call.
- `router->allocForSending()` is an input (`Mesh.Allocation`).
- `sizeof(p->decoded.payload.bytes)` is defined in the Meshtastic headers, not
  in this repository. It is the constructor parameter `capacity`, at least 1.
- `MeshService::isTextPayload` is a boolean of the received packet.
- `payload.size` is the length of the payload sequence.
- `Strings.CString` stops at the end of the buffer when it holds no NUL. In C,
  `String((char *) bytes)` on such a buffer reads on past its end.
- `sensoractuator.cpp` copies the text into `payload.bytes` but measures and
  reads `payload.data` (lines 176 and 193). The model takes both to be the
  same buffer.
- Only the two builds `SENSOR_NODE` and `ACTUATOR_NODE` of
  `sensoractuator.cpp` are modelled. A build with neither macro defined is
  not. Nor is a build with both defined: its `setup()` takes only the sensor
  branch (lines 114-118) and skips lines 119-121, so `LED_TEMP` is never
  driven LOW, yet
  `handleIncoming` is compiled in.
- `Dashboard.PgBool` assumes that `pg_fetch_assoc` hands a PostgreSQL boolean
  to PHP as the text `'t'` or `'f'`; the driver is not part of this model.
- The `(float)` casts of temperature and humidity for the chart: a non-null
  reading becomes `Some(value)`, standing for the cast value.
- The `time` column is a natural number in query order, not a timestamp.
- `Protocol.OwnSensorTextIgnored` requires that no formatted reading contains
  a double quote. `String` of a number only yields digits, a sign, a point,
  `nan`, `inf` or `ovf`, but that formatting is not modelled.
- `Protocol.SensorJsonLacksKey` takes the absence of the key from each
  literal piece as a requirement. `Protocol.OwnSensorTextIgnored` meets it for
  `"led1"` and `"led2"`.
- `Protocol.SensorTextRecognised` and `Protocol.ActuatorSensorTextRecognised`
  require a payload buffer of at least 8 bytes, because the buffer size comes
  from the Meshtastic headers. `Protocol.FeedbackFitsBuffer` requires 44 bytes
  for the same reason.
- `ActuatorNode.CorrectedLedVerdict` states only which packets it rejects and
  which LEDs it sets. The values it sets are stated by `ActuatorNode.KeyValue`
  and `Protocol.CorrectedCommandRoundTrip`.
- The firmware class keeps the handler as written. The corrected reading
  below is proved beside it and does not replace it.

## Findings

| source | as written | input that shows it | evidently intended | confidence | as-written member | corrected member |
|---|---|---|---|---|---|---|
| pagaduan_sensoractuator/SensorActuatorModule.cpp:234-235 | LED1 is set on when `true` occurs anywhere from the first `"led1"` to the end of the text, which includes LED2's value | `{"led1":false,"led2":true}`, which the dashboard sends when only LED2 is ticked; both LEDs go on | each LED takes the value written right after its own key, so LED1 stays off | not executed | `Protocol.FalseTrueLightsBoth` | `Protocol.CorrectedCommandRoundTrip` |
