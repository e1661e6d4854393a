# OTA update agent for the ESP32: a Dafny model

The firmware listens on an MQTT topic for an update announcement, a JSON
document with a `version` and a `url`. When the announced version differs from
the version compiled into the firmware (`v0.0.1`), it downloads the image over
HTTPS straight into the flash update partition, finalises it and restarts the
device. A retry loop keeps the broker connection alive.

The model covers the three parts of `src/main.cpp` that make these decisions.
The libraries they call are replaced by the values those calls return.

- `Ota` (ota.dfy) models `performOTA`. It is a state machine
  `Idle → CheckUrl → Connecting → CheckStatus → CheckLength → FlashBeginning →
  Writing → Finalizing → Verifying → Restarting`, and `Fail(reason)` can be
  reached from every checking state. The results of `https.begin`, `GET`,
  `getSize`, `Update.begin`, `Update.writeStream`, `Update.end` and
  `Update.isFinished` form one `Oracle` record. Each run records, in order,
  every library call it makes. It also records whether the HTTP session is
  still open and whether the image was committed (`Update.end()` succeeded).
  `PerformOta` is the routine written as the source writes it, as a chain of
  early returns. It is proved equal to the state machine. The machine is in
  turn proved equal to a closed form that depends only on how many of the
  eight guards pass before the first one fails.
- `Announce` (announce.dfy) models `mqttCallback`. `HandleMessage` copies the
  payload byte by byte into a string and parses it. The JSON parser is a
  function parameter that returns an error or the document's keys. The handler
  then checks both keys, and it runs the update only when the versions differ
  as strings.
- `Broker` (broker.dfy) models `reconnectMQTT` and `loop` as methods of a
  `Device` class. The class holds the current version, the connection flag,
  the trace of broker-client calls, the verdicts of handled announcements and
  a restart flag. Connect results are injected as a sequence. The loop asks
  the client whether it is connected twice per attempt: right after `connect`,
  and again at the loop test. So an accepted result also records whether the
  link still holds at the loop test. Each `loop`
  tick gets one injected service result: nothing, link lost, or one delivered
  announcement together with whether the link survived the callback. The
  callback blocks the client for as long as the update routine runs.

Three behaviours of the code that the model keeps:

- On success the code restarts without calling `https.end()`. So the session
  is still open in the `Restarting` state.
- The image is committed by `Update.end()`. If `Update.isFinished()` then
  reports false, the routine fails with the image already committed
  (`CommitOnlyAfterFullWrite`).
- No failure path aborts the flash update. The code makes no `Update.abort()`
  call, so the trace has none.

## Model

| member | source | states |
|---|---|---|
| `Ota.Execute` | src/main.cpp:23-103 | The whole of `performOTA(url)` under the library results `o`: the state machine run from `Idle`. It always ends in `Restarting` or `Fail`. Its terminal state is characterised by `Ota.ExecuteClosedForm`. |
| `Ota.Step` | src/main.cpp:31-101 | Each guard of the routine is one transition. The transition moves strictly towards a terminal phase. |
| `Ota.StepOnlyAppends` | src/main.cpp:31-101 | A transition only appends to the call trace: no call is undone or reordered. |
| `Ota.RunOnlyAppends` | src/main.cpp:23-103 | A whole run only appends to the call trace it starts from. |
| `Ota.Run` | src/main.cpp:23-103 | A run always ends in `Restarting` or `Fail(reason)`, because the routine has no loop. |
| `Ota.Passed` | src/main.cpp:31-93 | Gives the number of guards that pass, in source order, before the first failure. Every guard before it passes, and the guard at that index fails. |
| `Ota.ExecuteClosedForm` | src/main.cpp:23-103 | The first failing guard fixes the whole run. It fixes the terminal phase and reason, and the exact call trace: a prefix of the success path, plus `https.end()` when `https.begin` had succeeded, plus delay(1500) and the restart on success. It also fixes whether the session is still open and whether the image was committed. |
| `Ota.RestartIffAllGuardsPass` | src/main.cpp:41-101 | A restart happens if and only if all eight guards pass. Otherwise the result is `Fail` with the first failing guard's reason, and no restart call is made. |
| `Ota.NonHttpsNeverConnects` | src/main.cpp:31-34 | A URL without the `https://` prefix fails with `NotHttps`. It makes no library call, so no client or connection is created. |
| `Ota.CallGatedByEarlierGuards` | src/main.cpp:46-93 | Each call on the success path is made if and only if every guard before it passed. So `Update.begin` is never called after a non-200 status or a length ≤ 0, and `writeStream` is never called after a failed `Update.begin`. |
| `Ota.SessionEndedOnceOnFailure` | src/main.cpp:41-93 | After `https.begin` succeeded, every failure calls `https.end()` exactly once, as the last call. A failed scheme check or a failed `https.begin` never calls it, and neither does the success path. |
| `Ota.CommitOnlyAfterFullWrite` | src/main.cpp:74-93 | The image is committed if and only if every guard up to `Update.end()` passed, which includes written bytes equal to the declared length. A committed run fails only when `isFinished()` is false. |
| `Ota.PerformOta` | src/main.cpp:23-103 | The early-return routine gives the same final state as the state machine. It restarts if and only if all guards pass. |
| `Announce.Text` | src/main.cpp:115-116 | The text built from the payload has one character per byte, each with that byte's code, in order. |
| `Announce.UpdateNeeded` | src/main.cpp:141 | The version gate is plain string inequality. No ordering between versions is used. |
| `Announce.Decide` | src/main.cpp:124-147 | The callback's decision after parsing. An update happens only for a parsed document whose `version` differs from the current one, and it carries that version and a completed run of the update routine. The full if-and-only-if is `Announce.OtaStartsIff`. |
| `Announce.HandleMessage` | src/main.cpp:110-148 | The copied message has exactly `length` characters, equal to `payload[0..length)` in order. The verdict is the decision on the parse of that message under the current version. |
| `Announce.OtaStartsIff` | src/main.cpp:124-147 | The update starts if and only if parsing succeeded, both keys are present and the versions differ. It then runs on the announced URL. A parse error, a missing key or an equal version makes no library call. |
| `Announce.RestartIffAnnouncedAndAllGuardsPass` | src/main.cpp:124-147 | A message leads to a restart if and only if it is a valid announcement of a different version and every update guard passes on its URL. |
| `Announce.EqualVersionNeverFetches` | src/main.cpp:141-144 | An announced version equal to the current one never starts a fetch. |
| `Announce.OlderVersionStillUpdates` | src/main.cpp:141-147 | The gate is string inequality. Announcing `v0.0.0` against `v0.0.1` still runs the update. |
| `Broker.ConnectCall` | src/main.cpp:160-163 | The credentialed connect is used if and only if the user name is non-empty. Both connects use the client id `esp32-s3`. |
| `Broker.RetryTrace` | src/main.cpp:156-176 | The calls a run of retry attempts makes on the broker client, exactly two per attempt. Its shape is `Broker.RetryTraceShape`. |
| `Broker.Consumed` | src/main.cpp:157-175 | The retry loop uses every attempt up to and including the first one that is accepted and still reads as connected at the loop test, or all attempts when there is none. |
| `Broker.RetryTraceShape` | src/main.cpp:156-176 | The retry trace alternates. Each connect is followed by a subscribe to the topic when the client reads as connected right after it, or by a 3000 ms wait when it does not. So no wait ever follows an accepted connect. |
| `Broker.SubscribeOnlyAfterAcceptedConnect` | src/main.cpp:160-169 | Every subscribe in a retry trace comes right after a connect whose attempt was accepted. |
| `Broker.RetryEndsAtFirstHeldConnect` | src/main.cpp:157-175 | When some attempt is accepted and still connected at the loop test, the retries end with that attempt's connect and subscribe. Any earlier subscribe belongs to an accepted attempt whose link dropped before the loop test, and the next connect follows it at once, with no wait. |
| `Broker.Device.constructor` | src/main.cpp:14-17 | The device starts disconnected, with the given version and no calls, verdicts or restart. |
| `Broker.Device.Reconnect` | src/main.cpp:156-176 | The method ends connected if and only if it was already connected or some injected attempt is accepted and still connected at the loop test. It consumes exactly the attempts up to the first such one, and it appends exactly the retry trace of those attempts. The version is unchanged. |
| `Broker.Device.Loop` | src/main.cpp:213-216 | Reconnects only when disconnected, and services the client exactly once when that leaves it connected. At most one announcement is handled per tick, against the unchanged current version. Afterwards the device is connected if and only if the service was quiet, or it delivered an announcement and the link survived the callback; a lost link makes the next tick reconnect first. The device is marked restarted if and only if that announcement's update reached the restart. |

## Left out

- Network bootstrap in `setup` (WiFi association, the busy-wait on the radio status) and the broker setup calls (`setServer`, `setCallback`). The `Device` constructor stands for the state after `setup`.
- TLS configuration (`setInsecure`) and the internals of HTTPClient, PubSubClient, `Update` and ArduinoJson. Their results are injected values: `Oracle`, the `parse` function, connect results and service results.
- Serial logging, `printError` and the `topic` argument of the callback, which is only logged.
- Timing. `delay(1500)` and `delay(3000)` are recorded as calls, and time itself is not modelled.
- `ESP.restart()` is the terminal `Restarting` phase. The `return true` after it is unreachable and is not modelled.
- Broker.Device.Reconnect: the device retries for ever while no attempt stays connected. The model stops when the injected results run out and leaves the device disconnected.
- Broker.Device.Loop: when the injected connect results run out, the device is still inside `reconnectMQTT` and the tick ends without servicing the client. The firmware would stay in that retry loop instead.
- Broker.Device.Reconnect: a refused connect is taken to read as disconnected at the loop test too, because only a new `connect` can make the client connected again. Only an accepted connect carries a separate result for the loop test.
- The configuration header: credentials, topic and user name are parameters (`Config`), and no real values appear. `FIRMWARE_VERSION` is not used by the code, which hard-codes `currentVersion`.
- Integer widths. `written` (an unsigned size) and `contentLength` (a signed int) are compared as mathematical integers. Once the length guard has passed, the length is positive, so this comparison agrees with the code's.
- String allocation failures while building the message, and NUL bytes inside strings, are not modelled. Each payload byte becomes exactly one character.
- Image signing and monotonic version ordering. The code has neither.
