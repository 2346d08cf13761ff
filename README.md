# AlzetteLink core, modelled in Dafny

AlzetteLink carries machine telemetry from MQTT devices to an InfluxDB store
and to a browser dashboard. This project models the logic of three parts of it:

- **The bridge service** (`bridge.dfy`, module `BridgeService`):
  - the payload validator;
  - `safeJsonParse`;
  - the InfluxDB point the bridge builds for an accepted reading;
  - the MQTT `message` and `error` handlers, with their session counters (`stats`).
- **The dashboard's export helpers** (`export_helpers.dfy`, module `ExportHelpers`):
  - the CSV serialiser;
  - the JSON export document;
  - the download file name.
- **The dashboard's history of readings** (`history.dfy`, module `DashboardHistory`). Each message puts a new point at the front, and only the newest 50 points are kept.

Supporting modules:

- `js_value.dfy` (`JsValue`) holds the JavaScript values that `JSON.parse` yields. It also gives `undefined` as `None`, truthiness and `Number.isInteger`.
- `strings.dfy` (`Strings`) holds `join` and `split`.
- `rfc4180.dfy` (`Rfc4180`) is an independent reader for one CSV record under the rules of section 2 of RFC 4180. The CSV export is proved against it: every row of readable cells reads back as the values it was made from.

Inputs from outside are parameters of the model:

- The outcome of `JSON.parse` is `decoded: Option<JsVal>`, where `None` means the parse threw.
- The outcome of the storage write is `writeOk: bool`.
- JavaScript's number-to-text conversion is `show: real -> string`.
- The clock's readings are strings: `now`, `iso`, `time` and `stamp`.

The bridge's counters are the fields of class `Bridge`. Its handlers are methods proved against the pure functions `Handle` and `Step`. The invariant they keep is `received == valid + invalid`, `saved <= valid` and `valid <= saved + errors`. It is proved for the class, and for any sequence of events through `Run` and `RunConsistent`. The third part holds for the model and not for the code as written: see "## Findings" and "## Left out".

Behaviour of the code worth knowing:

- `humidity` is not checked to be numeric, and `machine_id` is not checked at all. A falsy `machine_id` gives the default `esp32_default`. So do an empty string and `0`, not only an absent key.
- `status` is stored only when it is truthy. An empty string status is accepted but not written.
- A payload that decodes to a falsy value (`null`, `0`, `""`, `false`) is counted as invalid JSON, like one that does not decode. The validator never sees it.
- `ValidatePayload` is a function, so validating the same payload twice gives the same verdict and errors.
- The bridge's unit test file defines its own, looser validator. For example, it accepts `status: 0`. `TestPayloads` states the verdicts of the service's validator on the test's payloads.

## Model

| member | source | states |
|---|---|---|
| JsValue.Get | web-dashboard/src/utils/exportHelpers.js:22 | reading an own property of a decoded JSON object gives `undefined` exactly when the key is missing, and otherwise the stored value (inherited properties are not modelled) |
| BridgeService.ValidatePayload | bridge-service/index.js:43-71 | `valid` holds iff the error list is empty, iff the temperature, status and counter rules all hold; errors come in temperature, status, counter order; there are at most 3 of them |
| BridgeService.ViolationsCharacterized | bridge-service/index.js:47-65 | each violation is reported iff its own rule is broken: missing/non-number temp; a number outside [-40, 100]; a present non-string status; a present non-integer counter; a present negative integer counter |
| BridgeService.MissingTempNotOutOfRange | bridge-service/index.js:47-51 | a missing or non-number temp is rejected with the "missing" error and never a range error |
| BridgeService.TemperatureBounds | bridge-service/index.js:49-51 | a temperature-only payload is accepted iff -40 <= t <= 100, both bounds inclusive |
| BridgeService.CounterRule | bridge-service/index.js:59-65 | at most one counter error, and none when the counter is absent |
| BridgeService.OnlyThreeKeysMatter | bridge-service/index.js:43-71 | adding, changing or removing any key other than temp, status and counter (humidity, machine_id, ...) leaves the verdict and errors unchanged |
| BridgeService.KeyIrrelevant | bridge-service/index.js:43-71 | two payloads that agree on every key except one unchecked key get the same result |
| BridgeService.TestPayloads | bridge-service/tests/bridge.test.js:48-66 | the test's payloads get the expected verdicts: 24.5 with status and counter accepted, 150 out of range, missing temp, temp-only accepted; in addition, counter 1.5 is rejected as a non-integer and counter 0 is accepted |
| BridgeService.Point.constructor | bridge-service/index.js:192 | a new point has the measurement name and no tags or fields |
| BridgeService.Point.Tag | bridge-service/index.js:193-194 | sets one tag and changes nothing else |
| BridgeService.Point.FloatField | bridge-service/index.js:195 | sets one float field and changes nothing else |
| BridgeService.Point.StringField | bridge-service/index.js:198-200 | sets one string field and changes nothing else |
| BridgeService.Point.IntField | bridge-service/index.js:201-203 | sets one integer field and changes nothing else |
| BridgeService.BuildPoint | bridge-service/index.js:192-206 | the builder calls, in the source's order, produce exactly `PointOf` of the payload and topic |
| BridgeService.PointShape | bridge-service/index.js:192-206 | measurement `machine_telemetry`; tags are exactly machine_id (the payload's if truthy, else `esp32_default`) and topic; temperature always present and in range; status present iff a non-empty string; counter present iff given (a non-negative integer); humidity present iff given; no other fields |
| BridgeService.PointOf | bridge-service/index.js:192-206 | the point of an accepted payload; its own contract says only that the measurement is `machine_telemetry` and temperature is present; its meaning is stated by `PointShape` and `TemperatureOnlyPoint` |
| BridgeService.TemperatureOnlyPoint | bridge-service/index.js:192-206 | a temperature-only reading gives exactly the temperature field, the default machine and the topic |
| BridgeService.SafeJsonParse | bridge-service/index.js:78-84 | the result is `null` iff the parse threw or the text was `null`; otherwise it is the decoded value |
| BridgeService.Handle | bridge-service/index.js:165-218 | the single path of one message; its own contract says only that a build or write happens for accepted payloads; its meaning is stated by `HandleOutcomes` (it counts a failed point build as an error, see "## Findings") |
| BridgeService.HandleOutcomes | bridge-service/index.js:174-217 | invalid JSON iff no decoded value or a falsy one, whatever the store does; a validation failure iff truthy but rejected, carrying exactly the validator's errors; a failed point build iff accepted with an unstorable humidity; otherwise a write iff accepted, of `PointOf` the payload, counted as saved iff the write succeeds |
| BridgeService.Step | bridge-service/index.js:156-217 | the counter updates of one event; its own contract says only that some counter grows; its meaning is stated by `StepAccounting` and `RunCounts` |
| BridgeService.StepAccounting | bridge-service/index.js:166-215 | a message adds 1 to `received` and to exactly one of `valid` or `invalid`; a valid one adds 1 to exactly one of `saved` or `errors` |
| BridgeService.StepPreservesConsistency | bridge-service/index.js:126-218 | every event keeps `received == valid + invalid`, `saved <= valid` and `valid <= saved + errors` |
| BridgeService.RunCounts | bridge-service/index.js:126-218 | after any session, each counter is the number of events of its kind (messages, valid, invalid, saved, and broker errors plus failed writes and builds) |
| BridgeService.RunConsistent | bridge-service/index.js:126-218 | the counters are consistent after any sequence of events |
| BridgeService.StepAsWritten | bridge-service/index.js:189-206 | the counters after one message as written: `received` grows by 1, and a point build that throws leaves `saved` and `errors` as they were |
| BridgeService.UnwritableHumidityUncounted | bridge-service/index.js:189-209 | `{temp: 20, humidity: null}` is accepted, its point cannot be built, and as written the session is left with one valid message neither saved nor an error, breaking `valid <= saved + errors`; counted as an error, the counters stay consistent |
| BridgeService.Scenarios | bridge-service/index.js:165-218 | the four end-to-end payloads: a full reading is saved with its three fields and bumps received/valid/saved; temp 150 is rejected with a range error; unparsable text is invalid JSON; counter -1 is rejected as negative; each invalid one bumps received/invalid only |
| BridgeService.Bridge.constructor | bridge-service/index.js:126-132 | all five counters start at 0 |
| BridgeService.Bridge.OnBrokerError | bridge-service/index.js:156-159 | only `errors` grows, by 1; the invariant is kept |
| BridgeService.Bridge.SaveReading | bridge-service/index.js:191-217 | builds `PointOf` the payload; bumps `saved` on a successful write, `errors` on a failed write or a failed build, and nothing else |
| BridgeService.Bridge.HandleMessage | bridge-service/index.js:165-218 | the outcome is `Handle` of the inputs, the new counters are `Step` of the old ones, and the counter invariant is kept |
| Strings.JoinCons | web-dashboard/src/utils/exportHelpers.js:33-36 | joining a longer list is the first element, the separator, then the join of the rest |
| Strings.SplitPrefix | web-dashboard/src/utils/exportHelpers.js:36 | a separator-free prefix only extends the first piece of a split |
| Strings.SplitJoin | web-dashboard/src/utils/exportHelpers.js:36 | splitting a join at its separator gives back the elements when none of them holds it |
| ExportHelpers.Render | web-dashboard/src/utils/exportHelpers.js:32-33 | the text `join` gives a non-string value; no contract of its own; used by `Cell` and `Meaning` |
| ExportHelpers.DoubleQuotes | web-dashboard/src/utils/exportHelpers.js:29 | `replace(/"/g, '""')`; no contract of its own; its meaning is stated by `UndoubleDoubleQuotes` |
| ExportHelpers.Cell | web-dashboard/src/utils/exportHelpers.js:22-32 | the text of one cell; no contract of its own; its meaning is stated by `QuotedCellRoundTrip`, `LineBreakNotQuoted` and `ReadCell` |
| ExportHelpers.ConvertToCSV | web-dashboard/src/utils/exportHelpers.js:11-37 | `convertToCSV`; no contract of its own; its meaning is stated by `NoDataExactly`, `HeaderFirst`, `LinesAreHeaderAndRows` and `RowReadsBack` |
| ExportHelpers.NoDataExactly | web-dashboard/src/utils/exportHelpers.js:11-14 | the text is "No data available" iff the data is missing or empty |
| ExportHelpers.HeaderFirst | web-dashboard/src/utils/exportHelpers.js:16-36 | for some records the text is the fields joined by `,`, a line break, then the rows joined by line breaks |
| ExportHelpers.LinesAreHeaderAndRows | web-dashboard/src/utils/exportHelpers.js:17-36 | without line breaks in the cells, the text's lines are the header, then exactly one row per record in input order |
| ExportHelpers.LineBreakNotQuoted | web-dashboard/src/utils/exportHelpers.js:28-32 | a status holding a line break is written unquoted, so a one-record export has three lines |
| ExportHelpers.QuotedCellRoundTrip | web-dashboard/src/utils/exportHelpers.js:28-30 | a string is quoted iff it holds a comma or a quote; a quoted cell starts and ends with `"`, and undoubling its inside gives back the string |
| ExportHelpers.UndoubleDoubleQuotes | web-dashboard/src/utils/exportHelpers.js:29 | reading doubled quotes as one undoes the quote doubling |
| ExportHelpers.ReadQuotedCell | web-dashboard/src/utils/exportHelpers.js:28-30 | an RFC 4180 reader reads a quoted cell back as the string, and stops at the separator after it |
| ExportHelpers.ReadBareCell | web-dashboard/src/utils/exportHelpers.js:32 | an RFC 4180 reader reads an unquoted cell with no comma back as itself |
| ExportHelpers.ReadCell | web-dashboard/src/utils/exportHelpers.js:22-32 | any readable cell reads back as its meaning: `undefined` and `null` as empty, a string as itself |
| ExportHelpers.RowReadsBack | web-dashboard/src/utils/exportHelpers.js:20-34 | a row reads back as one value per field, in field order, each the record's value for that field |
| ExportHelpers.ConvertToJSON | web-dashboard/src/utils/exportHelpers.js:45-54 | the data goes through unchanged; recordCount is the number of records; machineId is the given one, else `machine-01`; exportedBy is `AlzetteLink Dashboard`; exportDate is the export time |
| ExportHelpers.FileTimestamp | web-dashboard/src/utils/exportHelpers.js:84 | every `:` and `.` becomes `-`, then the last 5 characters are dropped (all of them when fewer); the result has no `:` or `.` |
| ExportHelpers.SplitAtFirstOf | web-dashboard/src/utils/exportHelpers.js:85 | splitting at the first `c` finds the boundary after a `c`-free prefix |
| ExportHelpers.GenerateFilename | web-dashboard/src/utils/exportHelpers.js:82-86 | the name starts with `sensor-data-`, ends with a dot and the format (default `csv`), and between them holds exactly the timestamp's length; its meaning is completed by `FilenameParts` and `IsoTimestamp` |
| ExportHelpers.FilenameParts | web-dashboard/src/utils/exportHelpers.js:82-86 | the name's first dot separates `sensor-data-` plus the timestamp from the format (default `csv`), so the format can be recovered from the name |
| ExportHelpers.IsoTimestamp | web-dashboard/src/utils/exportHelpers.js:83-84 | for a millisecond UTC ISO time, the timestamp is the date, then hours, minutes and seconds joined by dashes |
| DashboardHistory.NewPoint | web-dashboard/src/App.jsx:38-45 | the new history point; no contract of its own; its meaning is stated by `OnMessage` |
| DashboardHistory.Prepend | web-dashboard/src/App.jsx:46-48 | the new history has length min(old + 1, 50), the new point first, and entry i is the old entry i - 1 |
| DashboardHistory.OnMessage | web-dashboard/src/App.jsx:30-52 | a parse failure leaves the history unchanged; a `null` payload is the updater's TypeError; otherwise the payload's temp, status and counter are copied into a new first point whose chart value is its temp, with the given times; the rest shifts back by one |
| DashboardHistory.OnlyOldestDropped | web-dashboard/src/App.jsx:46-48 | below the limit nothing is dropped; at the limit exactly the oldest entry is |
| DashboardHistory.History | web-dashboard/src/App.jsx:37-49 | the history after a sequence of points: at most 50 entries, the last point first |
| DashboardHistory.NewestFirst | web-dashboard/src/App.jsx:37-49 | after any sequence of points the history holds the min(n, 50) most recent ones, newest first |

## Left out

- MQTT connect, subscribe, reconnect and close events, the startup banner, configuration, logging and the graceful shutdown with its forced-exit timer are I/O and process control. They are not modelled.
- The InfluxDB client is not modelled. The write-and-flush is the parameter `writeOk`. Of its coercion of field values, only `floatField` throwing on a `null`, boolean or object humidity is modelled (`FloatRejected`). A string or array humidity that `parseFloat` cannot read, and a counter beyond the client's 64-bit range, are taken to be stored.
- `BridgeService.Handle`: it counts a point build that throws as an error, which is the corrected behaviour of "## Findings". As written, such a message is counted only as valid. So the third conjunct of `Consistent` (`valid <= saved + errors`), and `RunCounts`' reading of `errors` as broker errors plus failed writes, hold for the model only. `StepAsWritten` is the as-written counting.
- `BridgeService.Consistent`: a message whose `await writeApi.flush()` has not yet finished has bumped `valid` but not yet `saved` or `errors`. Counters read at shutdown can show that. The model treats each message as handled to completion.
- `JsValue.Get`: a `Record` holds only the own properties of a decoded object. A field name that is an inherited property, such as `toString`, `constructor` or `__proto__`, therefore reads as `undefined` in the model, while in JavaScript it reads the inherited value. The dashboard passes only `temp` and `status`.
- `await` and the interleaving of handler invocations are not modelled. Each message is handled to completion before the next one.
- `JSON.parse` is a parameter. Numbers are exact reals, so IEEE rounding, `-0`, `NaN` and the `Infinity` of an overflowing literal are left out.
- `BridgeService.Describe` gives the log text of each violation. It has no contract of its own, because the number in the range message is rendered by the abstract `show`.
- `ExportHelpers.LinesAreHeaderAndRows`: the header's field names are neither quoted nor escaped, and non-string values (arrays, for instance) are written as rendered, with no quoting. The lemma therefore needs the cells to be free of line breaks, and `RowReadsBack` needs non-string values whose text has no comma or quote.
- `JSON.stringify` of the export document, `downloadFile` and the browser's download are left out. The model stops at the object handed to `JSON.stringify`.
- The clock (`new Date()`, `toISOString`, `toLocaleTimeString`) gives string parameters.
- `DashboardHistory.OnMessage`: React's scheduling of the updater, the `setSensorData`/`setLastUpdate` calls and the error a thrown updater causes during rendering are not modelled. The thrown TypeError is reported as the `TypeError` result.

## Findings

| source | as written | input that shows it | evidently intended | confidence | as-written member | corrected member |
|---|---|---|---|---|---|---|
| bridge-service/index.js:189-217 | the point is built (lines 192-206) after `valid` is bumped and before the `try` at 209. `floatField` throws on a humidity the validator never checks, the async handler rejects, and neither `saved` nor `errors` moves | `{"temp": 20, "humidity": null}` | a message that is counted valid ends up saved or counted as an error | medium, not executed (the throw is the InfluxDB client's, whose source is not part of this model) | BridgeService.UnwritableHumidityUncounted | BridgeService.Bridge.HandleMessage |
