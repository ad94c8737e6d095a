# Custom IoT Platform: handler decision logic in Dafny

This project models the web server of the Custom IoT Platform. The server is
glue between an MQTT broker, PostgreSQL and `net/http`, and this model covers
the decision procedures inside that glue:

- **Ingestion pipeline.**
  - The MQTT state-message normaliser (`parseMessage`) and `StateUpdatedHandler`.
  - The legacy `<uuid>/state` handler.
  - The event-stream consumer loop (`SseStateHandler`).
- **Device login.** `HandleDeviceLogin` together with the template-id lookup it relies on.
- **Command pipeline.** `ToggleHandler` and `NumberInputHandler`.
- **Read and validation handlers.**
  - `GetDeviceState`.
  - `parseJSONActions` and `DeviceFeaturesHandler`.
  - `CreateDashboardHandler`, which turns a submitted form into positioned dashboard entries.

Each handler is a pure function, or a method for the form loop, from its
inputs and the results of the calls it makes to an outcome value. The
outcome records the HTTP response, the publish record, the store calls and
the frames written. Calls into the database, `encoding/json` and the MQTT
client are function-typed parameters ("oracles"). The shared update channel
is a finite sequence, so the event-stream loop is a fold.

Modules:

- `Wrappers`: `Option`.
- `GoStrings`: `strings.Index`, `Contains`, `Split` (non-empty separator), `Join`, `HasPrefix`, `TrimPrefix`.
- `GoStrconv`: `strconv.Atoi` over the int64 range, with `Itoa` as its inverse.
- `Model`: the `model.Device` and `model.Update` records, MQTT messages and publishes, decoded JSON values.
- `Http`: what a handler writes to its `ResponseWriter`. The first header write fixes the status and later bodies are appended; a handler that writes nothing answers 200.
- One module per handler file: `StateUpdated`, `DevicePost`, `SseState`, `DeviceLogin`, `CommandHandlers`, `GetDeviceStateHttp`, `UiHandlers`.

Three facts about the code shape the model:

- The action name is read from the JSON key `Action_name`, spelt with a capital A.
- Updates travel over one shared channel, not a broadcast hub. Every open event stream runs its own `SseStateHandler` loop over that same channel, and each update is received by only one of those loops. `SseState.Serve` models the updates that one loop receives.
- There is no connection state machine: the connect, reconnecting and disconnect callbacks only log.

## Model

| member | source | states |
|---|---|---|
| GoStrings.Index | internal/mqtt_handlers/device_post.go:14 | The result is the first position where the pattern occurs; None only when it occurs nowhere, so `Index(s, p).Some?` is `strings.Contains(s, p)`. |
| GoStrings.Split | internal/mqtt_handlers/device_post.go:15-19 | Split yields at least one piece and no piece contains the separator, so a `len(parts) < 1` guard can never fire. |
| GoStrings.SplitFirstPiece | internal/mqtt_handlers/device_post.go:15-20 | The first piece is the text before the first occurrence of the separator, or the whole string when the separator is absent. |
| GoStrings.JoinSplit | internal/mqtt_handlers/state_updated_handler.go:14 | Splitting a topic on `/` loses nothing: joining the levels back gives the topic. |
| GoStrings.SplitJoin | internal/mqtt_handlers/state_updated_handler.go:14 | Levels free of `/` joined with `/` split back into exactly those levels. |
| GoStrings.TrimPrefix | internal/http_handlers/ui_handlers.go:140-141 | With the prefix present (`strings.HasPrefix`), the prefix followed by the result is the key; otherwise the key is unchanged. |
| GoStrings.TrimPrefixOfConcat | internal/http_handlers/ui_handlers.go:140-141 | Trimming `device_action_` off `device_action_` + s gives s back. |
| GoStrconv.Atoi | internal/http_handlers/toggle_handler.go:15-19 | An accepted id is an optionally signed, non-empty run of decimal digits; its value lies in the int64 range and is negative only with a leading `-`. |
| GoStrconv.AtoiAccepts | internal/http_handlers/toggle_handler.go:15-19 | A non-empty run of digits, alone or after `+`, parses to its value, and after `-` to the negated value, whenever that value fits in an int64; otherwise it is rejected. |
| GoStrconv.Itoa | internal/http_handlers/sse_state_handler.go:18 | `%d` of an id: decimal digits, with a leading `-` exactly for negative ids. |
| GoStrconv.AtoiItoa | internal/http_handlers/get_device_state_handler.go:16 | Every int64 written in decimal parses back to itself, so a client that sends a real id is never answered "Invalid device ID". |
| Model.BytesToString | internal/mqtt_handlers/device_post.go:22 | The payload text has one character per payload byte, with the same code. |
| Model.BytesStringRoundTrip | internal/mqtt_handlers/device_post.go:22-24 | Converting the payload to text and back gives the payload unchanged. |
| Http.Error | internal/http_handlers/get_device_state_handler.go:18 | The status is the given code unless a header was already written; the message and a newline are appended to the body. |
| Http.Print | internal/http_handlers/get_device_state_handler.go:32 | Printing to an unwritten response fixes status 200 and appends the text. |
| Http.FormValue | internal/http_handlers/number_input_handler.go:18-20 | The first value submitted under the key, or "" when the key is missing or has no values. |
| StateUpdated.StringField | internal/mqtt_handlers/state_updated_handler.go:28-34 | The `.(string)` assertion succeeds exactly when the key is present and holds a JSON string, and yields that string. |
| StateUpdated.ParseMessage | internal/mqtt_handlers/state_updated_handler.go:13-41 | All or nothing: with two or more topic levels, an object payload, a string under `Action_name` and a string under the key it names, the result is the second level, that action and that state; otherwise it is three empty strings. |
| StateUpdated.StateUpdatedHandler | internal/mqtt_handlers/state_updated_handler.go:42-54 | The UUID looked up is the parsed one, which is "" after a parse failure. An update is sent exactly when the lookup succeeds; its id comes from the lookup and its action and state from the parse. |
| StateUpdated.ParseComposed | internal/mqtt_handlers/state_updated_handler.go:14-40 | A message on `<ns>/<uuid>/...` whose payload names the action and carries the state parses back to exactly that UUID, action and state, however many levels follow. |
| StateUpdated.SingleLevelTopicRejected | internal/mqtt_handlers/state_updated_handler.go:14-18 | A topic without `/` yields three empty strings. |
| StateUpdated.NonStringFieldRejected | internal/mqtt_handlers/state_updated_handler.go:28-38 | A non-string action name or a non-string state yields three empty strings. |
| StateUpdated.MalformedMessageStillLooksUp | internal/mqtt_handlers/state_updated_handler.go:46-53 | A malformed message still looks up "". If that lookup fails nothing is sent; otherwise one update with empty action and state is sent. |
| StateUpdated.WellFormedKnownDeviceDelivers | internal/mqtt_handlers/state_updated_handler.go:46-53 | A well-formed message from a known device sends exactly one update, carrying the looked-up id, the action and the state. |
| DevicePost.GetDeviceStateHandler | internal/mqtt_handlers/device_post.go:10-31 | The message is ignored exactly when the topic lacks `/state`. Otherwise UpdateDeviceState is called once, with the topic text before the first `/state` and the raw payload as text; the outcome is Stored exactly when that call does not fail. |
| DevicePost.StatePushStoredUnderUuid | internal/mqtt_handlers/device_post.go:14-24 | A payload published on `<uuid>/state...` is stored under that UUID, byte for byte, when the UUID does not contain `/state`. |
| SseState.Step | internal/http_handlers/sse_state_handler.go:18-43 | One iteration prints the event text first and calls the store second with `{action: state}`. No frame precedes the last effect, and the last effect is the frame `data: <json>\n\n` exactly when encoding succeeded. |
| SseState.AfterStore | internal/http_handlers/sse_state_handler.go:29-42 | After the store call come at most a log line for a store failure and then either the frame (exactly when encoding succeeded) or a log line; no further store call. |
| SseState.Serve | internal/http_handlers/sse_state_handler.go:17-44 | The loop over the updates one stream receives makes exactly one store call per update. |
| SseState.Frames | internal/http_handlers/sse_state_handler.go:39 | The frames written are drawn from the loop's effects, never more of them. |
| SseState.StoreCalls | internal/http_handlers/sse_state_handler.go:28 | The store calls are drawn from the loop's effects, never more of them. |
| SseState.ServeAppend | internal/http_handlers/sse_state_handler.go:17-44 | The loop keeps no state between updates: serving a+b is serving a, then b. |
| SseState.StepProjections | internal/http_handlers/sse_state_handler.go:26-39 | One update makes exactly one store call, and writes its frame if encoding succeeded and no frame otherwise. |
| SseState.StoreCallPerUpdate | internal/http_handlers/sse_state_handler.go:17-31 | The store calls are one per update, in receipt order, each for the update's device id with the singleton map {action: state}. |
| SseState.FramePerUpdate | internal/http_handlers/sse_state_handler.go:17-39 | When every update encodes, exactly one frame per update is written in receipt order. Each frame is `data: <json>\n\n` of an object with exactly the keys `deviceID`, `actionName`, `state`, carrying the update's fields. |
| SseState.AtMostOneFramePerUpdate | internal/http_handlers/sse_state_handler.go:33-39 | No more frames are written than updates received, whatever fails. |
| SseState.EncodedFrames | internal/http_handlers/sse_state_handler.go:33-39 | Reference definition: for each update in order, its frame if its object encodes and nothing otherwise; never more frames than updates. |
| SseState.FramesAreEncodedUpdates | internal/http_handlers/sse_state_handler.go:17-44 | The frames the loop writes are exactly the reference frames: an encoding failure skips that update's frame and nothing else. |
| SseState.FrameDataFields | internal/http_handlers/sse_state_handler.go:20-24 | The object serialised for an update has exactly the keys `deviceID`, `actionName`, `state`, carrying the update's id, action and state. |
| SseState.StoreFailureKeepsFrames | internal/http_handlers/sse_state_handler.go:28-39 | Store failures do not change which frames are written. |
| SseState.StoreBeforeFrame | internal/http_handlers/sse_state_handler.go:26-39 | Each update's store call comes before its frame. |
| SseState.OnlyDataFramesWritten | internal/http_handlers/sse_state_handler.go:18-39 | Every frame written starts with `data: ` and ends with a blank line. No written frame equals the `event:` text of any update, which goes only to stdout. |
| DeviceLogin.FetchTemplateActions | internal/db/postgresql.go:215-228 | Gives (-1, ErrNoRows) for no row, (-1, err) for other failures, and (id, nil) for a found row. |
| DeviceLogin.HandleDeviceLogin | internal/mqtt_handlers/device_login.go:15-39 | Registration happens exactly when the payload decodes and the lookup does not abort (-1 with an error other than ErrNoRows). The record carries the looked-up template id. The response `<prefix><uuid>` with payload "y", QoS 0, not retained, is published exactly when registration is attempted. Where registration was attempted, it failed exactly when `registerFails` holds for that record. |
| DeviceLogin.LoginByTemplateScan | internal/mqtt_handlers/device_login.go:23-37 | A found template registers the device with its id; an unknown device type registers it with -1 and responds; any other failure aborts both. |
| DeviceLogin.UndecodableLoginIgnored | internal/mqtt_handlers/device_login.go:17-20 | An undecodable payload causes neither registration nor response. |
| DeviceLogin.RegistrationFailureStillResponds | internal/mqtt_handlers/device_login.go:32-38 | A failed registration leaves the response publish unchanged. |
| CommandHandlers.PublishCommand | internal/http_handlers/toggle_handler.go:24-27 | The command is published. A publish error answers 500; otherwise nothing is written. |
| CommandHandlers.ToggleHandler | internal/http_handlers/toggle_handler.go:11-28 | A non-integer id answers 400 and publishes nothing. Otherwise the action name is published on `toggle/<uuid of that id>` with QoS 0, not retained, and the response is 500 exactly when the publish fails. |
| CommandHandlers.NumberInputHandler | internal/http_handlers/number_input_handler.go:11-35 | A form parse failure or a non-integer `deviceID` answers 400 and publishes nothing. Otherwise `inputValue` is published on `number_input/<uuid>/<actionName>` with QoS 0, not retained, and the response is 500 exactly when the publish fails. |
| CommandHandlers.ToggleReachesDevice | internal/http_handlers/toggle_handler.go:15-24 | A toggle for an id in decimal form is published on the topic of the UUID looked up for that id. |
| CommandHandlers.ToggleTopicLevels | internal/http_handlers/toggle_handler.go:23 | The toggle topic has the two levels `toggle` and the UUID. |
| CommandHandlers.NumberInputTopicLevels | internal/http_handlers/number_input_handler.go:30 | The number-input topic has the three levels `number_input`, the UUID and the action name. |
| CommandHandlers.UuidLookupErrorIgnored | internal/http_handlers/toggle_handler.go:21-24 | The lookup's error does not affect either handler: only the returned UUID matters. |
| GetDeviceStateHttp.GetDeviceState | internal/http_handlers/get_device_state_handler.go:12-37 | A non-integer id answers 400 without a store query. Otherwise the store is queried with the parsed id and the unchanged action name: ErrNoRows answers 404, other errors 500, and a found state answers 200 with the state and one newline. |
| GetDeviceStateHttp.ReadBackStoredState | internal/http_handlers/get_device_state_handler.go:16-32 | With a decimal id the client gets 200 exactly when the store finds a state, and the body without its final newline is that state. |
| UiHandlers.ParseJSONActions | internal/http_handlers/ui_handlers.go:63-72 | Succeeds exactly when both strings decode, and then returns both decoded objects. |
| UiHandlers.DeviceFeaturesHandler | internal/http_handlers/ui_handlers.go:74-106 | An empty id answers 400 "missing" and a non-integer id answers 400 "Invalid device ID", both before any fetch. Later failures answer 500. The template is rendered exactly when fetch, template load and both decodes succeed, with the device's decoded actions and id. |
| UiHandlers.FeaturesFetchesDecimalId | internal/http_handlers/ui_handlers.go:75-92 | A request with any int64 id in decimal passes both id checks and fetches that device; it can then fail only with 500. |
| UiHandlers.Accepted | internal/http_handlers/ui_handlers.go:139-146 | A key is among the accepted keys exactly when it is one of the given keys, starts with `device_action_` and has an integer rest; there are never more accepted keys than keys. |
| UiHandlers.CollectEntries | internal/http_handlers/ui_handlers.go:136-161 | The loop produces one entry per accepted key in iteration order. Each entry has the key's device id, the JSON of its values, and positions 0,1,2,… with no gaps. A rejected key sets 400 and the loop continues; an encoding failure stops the loop with 500 unless 400 was already written. |
| UiHandlers.CreateDashboardHandler | internal/http_handlers/ui_handlers.go:121-178 | A form error or an empty name answers 400 without creating anything. The dashboard is created only when every accepted key's values encode, and entries are inserted only after creation succeeds. When an accepted key's values fail to encode, the loop stops at the first such key in iteration order: the answer is 400 if a key before it was rejected (the first status written wins), else 500, and nothing is created. Otherwise the status is 400 if any key was rejected, else 500 on a failed create or insert, else 200. |
| UiHandlers.AcceptedMembers | internal/http_handlers/ui_handlers.go:139-146 | A key is accepted exactly when it is one of the form's keys and has prefix `device_action_` with an integer rest. |
| UiHandlers.AcceptedIndependentOfOrder | internal/http_handlers/ui_handlers.go:139-161 | Whatever order Go's map iteration takes, the same keys are accepted and the number of entries is the same. |
| UiHandlers.RejectedKeyKeepsGoodKey | internal/http_handlers/ui_handlers.go:141-146 | In a form with one bad and one good `device_action_` key, the bad key is rejected (so the answer is 400), and the good key is still accepted as the only entry. |

## Left out

- SQL access (`internal/db/postgresql.go`) is not modelled. Every database call is an oracle parameter, and `FetchTemplateActions` keeps only its result shape. `GetDeviceIDByUUID`, `GetDeviceUUID`, `GetDeviceState` and `UpdateDeviceState` are not part of this model beyond their results.
- `encoding/json` is an oracle. Decoding gives an object of string/other values or an error. Encoding the frame object or a value list gives text or an error. Go's key ordering is not modelled.
- Process wiring in `cmd/web_server/main.go` is library configuration, not decision logic. This covers environment variables, MQTT client options, subscriptions and HTTP routing. The login response prefix (`MQTT_LOGIN_RESPONSE_TOPIC`) is a parameter.
- The connect, reconnecting and disconnect callbacks only log, so they are not modelled.
- `HandleHome`, `DashboardCreatorHandler`, `DisplayDashboardHandler`, and template execution in `DeviceFeaturesHandler` are rendering plus database reads. The model stops at the `Render` outcome.
- The device firmware (`SoilMoistureTracker`, `LightSwitchDevice`) is not modelled: it is an Arduino busy loop.
- Concurrency is not modelled. Handler goroutines and the channel become a finite sequence of the updates one stream's loop receives, in receipt order. Which of several open streams takes a given update is not modelled.
- Log lines are not modelled, apart from the event-stream loop's stdout lines, which record only the ordering of output. Error values interpolated into messages, such as `%v` of an error, are dropped from bodies.
- Writes to the client are assumed to succeed. `w` is the live `net/http` writer, and its writes fail once the client has gone (sse_state_handler.go:39-42, get_device_state_handler.go:32-35), but the model has no failed write. Because of this assumption, one consequence goes unmodelled. The event-stream loop has no exit on a failed write, so a stream whose client has left keeps taking updates off the shared channel, and those updates reach no client.
- Response headers set by the event-stream handler and the `Flush` call are not modelled.
- `strings.Split` with an empty separator is not modelled: both call sites pass a constant non-empty separator.
- A Go string is a byte sequence but is modelled as one character per byte, with no UTF-8 handling.
- `GoStrconv.Atoi`: its own contract states only the accepted shape, the int64 range and the sign of the result. The value of an accepted text, and the converse that every such text is accepted, are stated by `GoStrconv.AtoiAccepts`.
- `UiHandlers.Accepted`: its contract states which keys are accepted but not that they keep their relative order. The order is fixed by its definition and reaches the entries through `UiHandlers.EntriesFor`.
- `SseState.Frames`: states only a length bound; its content is stated through `SseState.StepProjections` and `SseState.FramePerUpdate`.
- `SseState.StoreCalls`: states only a length bound; its content is stated through `SseState.StepProjections` and `SseState.StoreCallPerUpdate`.
- Storing a state and reading it back, and idempotence of repeated stores, are not modelled: the store's own semantics live in SQL that is not part of this model.
- The "Invalid topic format" branch in `device_post.go` has no outcome of its own. `Split` always returns at least one piece, so that branch cannot be taken.
