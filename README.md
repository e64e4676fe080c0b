# ESP32 remote-control client, modelled in Dafny

This project models the Android app that drives an ESP32 car over TCP. It has three parts:

- **Joystick view.** A touch becomes a sample: the distance is clamped to the pad's radius, each axis is clamped to [-1, 1], and both axes are zeroed inside an 8 % dead zone.
- **Main activity.** It quantises joystick samples into the five directional commands (`forward`, `backward`, `left`, `right`, `stop`). An 80 ms ticker sends a direction only when it changes, and sends one `stop` after the stick is released. The activity also sends button and slider commands, and connects and disconnects the client (the port defaults to 12345). It logs every command it sends.
- **TCP client.** It frames each command as one line terminated by `\n`. It tracks its socket, writer and `running` flag through connect, disconnect and teardown. Its reader thread reports every received line to its listener, and a read failure only while the link is still running.

The modules follow the source files:

| file | module | models |
|---|---|---|
| `wrappers.dfy` | `Wrappers` | `Option`, for Kotlin's nullable values |
| `text.dfy` | `Text` | `String.trim()`, `String.toIntOrNull()` and `Int.toString()`; saved port text reads back as the same port |
| `joystick.dfy` | `Joystick` | `JoystickView.onTouchEvent`, clamping and dead zone |
| `wire.dfy` | `Wire` | line framing of `sendLine` and line splitting of `BufferedReader.readLine`, with their round trip |
| `tcp_client.dfy` | `Tcp` | `TcpClient`: each thread body as a pure transition on a `Link` value, and the class `TcpClient` proved against those transitions |
| `dispatch.dfy` | `Dispatch` | `MainActivity`'s handlers as functions on a `State` value, event traces, invariants, the ticker's de-duplication and stop on release |
| `activity.dfy` | `Activity` | the class `MainActivity`, whose handler methods update fields and are proved against the `Dispatch` functions |

Each class has a `Snapshot()` function that reads its fields into a datatype. Every handler method ensures `Snapshot() == F(old(Snapshot()), …)` for the pure function `F` of the same handler, and the properties are proved about those functions. The one exception is `Tcp.TcpClient.ReadLoop`, the `try` block of the reader thread. It returns the lines it delivered and the failure it caught, ties them to `Wire.Receive`, and says how many messages it reported; `RunReader` then connects the whole thread to `AfterReader`.

The event-trace model and the activity class use the corrected `onPause` (see "## Findings"). This `onPause` records the `stop` it sends as the last direction. `Dispatch.Step`, `Dispatch.Run` and `Activity.MainActivity.OnPause` all run the corrected `Dispatch.Pause`, so the invariant theorems `Dispatch.StepPreservesInv`, `Dispatch.RunPreservesInv` and `Activity.MainActivity.HandleAll` are about the corrected activity. The code as written is modelled by `Dispatch.PauseAsWritten`, and `Dispatch.PauseAsWrittenBreaksInv` shows that it breaks the invariant.

Behaviour of the code worth knowing:

- Every teardown reports `onDisconnected`, so two `disconnect` calls report it twice (`Tcp.DisconnectTwice`).
- The last direction sent is not reset when the link drops or the client is dropped. `disconnect` and `onError` leave `lastDirSent` as it was.
- `onError` drops the client but leaves the joystick's pressed flag set.
- The stop after a release is sent by the next ticker run, not by the release itself.
- The error for a send without a connection is `No conectado`.
- A direction button pressed without a client sets the last direction although nothing is sent (MainActivity.kt:151-157, 189-191). After a connect, pushing the stick the same way then sends nothing (`Dispatch.ButtonWithoutClientSuppressesForward`). The invariant `Dispatch.Inv` is therefore about the command log, which records every command passed to `sendCmd` with or without a client, and not about what reached the robot.

## Model

| member | source | states |
|---|---|---|
| Text.Trim | src/main/java/com/example/esp32control/MainActivity.kt:171-172 | the result is an infix of the input with only whitespace before and after it, and it neither starts nor ends with whitespace; so it is the input with exactly its leading and trailing whitespace removed, and a string with no whitespace at either end is its own trim |
| Text.NatToString | src/main/java/com/example/esp32control/MainActivity.kt:174 | the numeral is non-empty, all digits, and starts with `0` exactly when the number is zero |
| Text.DecimalValueOfNatToString | src/main/java/com/example/esp32control/MainActivity.kt:174 | the value of the numeral of `n` is `n` |
| Text.IntToString | src/main/java/com/example/esp32control/MainActivity.kt:174 | the text is non-empty and starts with `-` exactly when the integer is negative |
| Text.ToIntOrNull | src/main/java/com/example/esp32control/MainActivity.kt:172 | a value exactly for an optional `-` or `+` followed by at least one digit whose value lies in the 32-bit `Int` range, and then that value; nothing for the empty string, a sign alone, any other character, or a value out of range |
| Text.IntToStringRoundTrip | src/main/java/com/example/esp32control/MainActivity.kt:172-174 | every 32-bit integer written with `toString` parses back to itself |
| Joystick.CoerceIn | src/main/java/com/example/esp32control/JoystickView.kt:64-66 | the result lies within the bounds, equals the value when it is in range, and is the nearer bound otherwise |
| Joystick.Track | src/main/java/com/example/esp32control/JoystickView.kt:56-70 | the magnitude is the distance over the radius within the pad, 1 beyond the pad and 0 for no distance; outside the dead zone each axis is the offset over the radius within the pad and the nearer of -1 and 1 beyond it; inside the dead zone both axes are 0; every value lies in its range; the sample is pressed |
| Joystick.OnTouchEvent | src/main/java/com/example/esp32control/JoystickView.kt:53-79 | down and move report the tracked sample, which is pressed; up and cancel report the centred released sample; other actions report nothing (each direction of each iff) |
| Joystick.AxesWithinMagnitude | src/main/java/com/example/esp32control/JoystickView.kt:58-66 | when `dist` is the Euclidean distance, neither reported axis exceeds the reported magnitude |
| Joystick.AxesWithinClampedDistance | src/main/java/com/example/esp32control/JoystickView.kt:59-66 | axes no longer than the distance stay no larger than the magnitude after clamping to the radius |
| Wire.Frame | src/main/java/com/example/esp32control/TcpClient.kt:57-58 | the line starts with the command, is at most one character longer, ends with `\n`, and equals the command exactly when the command already ends with `\n` |
| Wire.FrameIdempotent | src/main/java/com/example/esp32control/TcpClient.kt:57-58 | framing a framed line changes nothing |
| Wire.FrameAbsorbsTerminator | src/main/java/com/example/esp32control/TcpClient.kt:57-58 | a command with or without its own `\n` goes out as the same line |
| Wire.Frames | src/main/java/com/example/esp32control/TcpClient.kt:56-59 | consecutive sends write nothing exactly when there are no commands |
| Wire.LineLength | src/main/java/com/example/esp32control/TcpClient.kt:36 | the first line stops at a terminator or at the end of input |
| Wire.LineLengthUnterminated | src/main/java/com/example/esp32control/TcpClient.kt:36 | the first line holds no terminator |
| Wire.ReadLine | src/main/java/com/example/esp32control/TcpClient.kt:36 | a line read consumes input; end of stream happens exactly on an empty, cleanly closed stream |
| Wire.ReadLineText | src/main/java/com/example/esp32control/TcpClient.kt:36 | a line read holds no terminator, and a terminated line is exactly the characters before its terminator |
| Wire.Receive | src/main/java/com/example/esp32control/TcpClient.kt:35-40 | a cleanly closed stream yields no error; a failing stream yields its failure message |
| Wire.ReceiveUnfold | src/main/java/com/example/esp32control/TcpClient.kt:35-37 | what one `readLine` contributes to everything received |
| Wire.ReceiveNextLine | src/main/java/com/example/esp32control/TcpClient.kt:35-37 | a reader that gets one more line has that line appended to what it collected, and the rest of the stream still to come |
| Wire.ReceiveLast | src/main/java/com/example/esp32control/TcpClient.kt:36-40 | a reader whose next `readLine` yields no line has collected everything, with the failure message if the stream failed |
| Wire.ReadFramed | src/main/java/com/example/esp32control/TcpClient.kt:36 | a framed command followed by anything reads back as that command, and the rest is left over |
| Wire.ReceiveFirstFrame | src/main/java/com/example/esp32control/TcpClient.kt:34-37 | receiving framed commands yields the first command, then whatever the remaining frames yield |
| Wire.ReceiveFrames | src/main/java/com/example/esp32control/TcpClient.kt:34-37 | the receiver gets exactly the commands that were framed, in order, when none holds a terminator |
| Tcp.Messages | src/main/java/com/example/esp32control/TcpClient.kt:37 | one `onMessage` per received line: event `i` is the message of line `i` |
| Tcp.MessagesAppend | src/main/java/com/example/esp32control/TcpClient.kt:35-37 | a further line adds its message at the end |
| Tcp.AfterDisconnectInternal | src/main/java/com/example/esp32control/TcpClient.kt:72-78 | socket and writer are gone, one `onDisconnected` is reported, and `running`, the reader and the wire are unchanged |
| Tcp.AfterConnect | src/main/java/com/example/esp32control/TcpClient.kt:21-51 | success sets socket, writer and `running`, reports `onConnected` and then starts the reader; failure reports `Connect error: …` then `onDisconnected` and leaves no socket or writer |
| Tcp.AfterSendLine | src/main/java/com/example/esp32control/TcpClient.kt:53-65 | with a writer, the framed command is appended to the wire and nothing is reported; without one, nothing is written and one `No conectado` error is reported |
| Tcp.AfterDisconnect | src/main/java/com/example/esp32control/TcpClient.kt:67-70 | socket, writer and `running` are all cleared, one `onDisconnected` is reported, and the reader thread and the wire are unchanged |
| Tcp.ReaderLive | src/main/java/com/example/esp32control/TcpClient.kt:35 | the reader loop's condition; `Tcp.TcpClient.ReadLoop` delivers lines only while it holds, and `Tcp.DisconnectSilencesReader` shows `disconnect` falsifies it |
| Tcp.ReaderEvents | src/main/java/com/example/esp32control/TcpClient.kt:35-40 | the reader's events before teardown; `Tcp.ReaderForwardsInOrder` and `Tcp.DisconnectSilencesReader` state them for a live and a disconnected link |
| Tcp.ReaderEventsFrom | src/main/java/com/example/esp32control/TcpClient.kt:35-40 | the reader loop's messages and its guarded error are the reader's events |
| Tcp.AfterReader | src/main/java/com/example/esp32control/TcpClient.kt:32-44 | the reader always ends in teardown: no socket, no writer, no reader, with `running` and the wire unchanged |
| Tcp.TeardownTwice | src/main/java/com/example/esp32control/TcpClient.kt:72-78 | a second teardown leaves the state alone but reports `onDisconnected` again |
| Tcp.DisconnectTwice | src/main/java/com/example/esp32control/TcpClient.kt:67-78 | two disconnects report exactly two `onDisconnected` and no error |
| Tcp.DisconnectSilencesReader | src/main/java/com/example/esp32control/TcpClient.kt:35-42 | a reader that runs after `disconnect` reports no message and no error, only its teardown |
| Tcp.ReaderForwardsInOrder | src/main/java/com/example/esp32control/TcpClient.kt:32-44 | on a live link the reader reports each received line in order, then the read error if the stream failed, then `onDisconnected` |
| Tcp.SendAllWrites | src/main/java/com/example/esp32control/TcpClient.kt:53-60 | with a writer, consecutive sends put exactly the framed commands on the wire and report nothing |
| Tcp.SendAll | src/main/java/com/example/esp32control/TcpClient.kt:53-60 | sending commands one after another; `Tcp.SendAllWrites` states what reaches the wire |
| Tcp.PeerReceivesCommands | src/main/java/com/example/esp32control/TcpClient.kt:21-60 | after a successful connect, a peer reading lines receives exactly the commands sent, in order |
| Tcp.Apply | src/main/java/com/example/esp32control/TcpClient.kt:21-78 | one step of a client: a connect attempt (not applied while a reader thread is alive), a send, a `disconnect`, or the whole run of a live reader thread |
| Tcp.ApplyAll | src/main/java/com/example/esp32control/TcpClient.kt:21-78 | steps applied in order; `Tcp.ConsistentAlways` proves the client consistent after any sequence of them |
| Tcp.ConsistentAlways | src/main/java/com/example/esp32control/TcpClient.kt:21-78 | over any sequence of steps, socket and writer exist together, and while they exist a reader will tear them down |
| Tcp.TcpClient.constructor | src/main/java/com/example/esp32control/TcpClient.kt:16-19 | a new client has no socket, no writer, is not running, and has reported and written nothing |
| Tcp.TcpClient.Connect | src/main/java/com/example/esp32control/TcpClient.kt:21-51 | the fields end as `AfterConnect` says |
| Tcp.TcpClient.SendLine | src/main/java/com/example/esp32control/TcpClient.kt:53-65 | writing the command and then a `\n` if needed leaves the fields as `AfterSendLine` says |
| Tcp.TcpClient.Disconnect | src/main/java/com/example/esp32control/TcpClient.kt:67-70 | the fields end as `AfterDisconnect` says |
| Tcp.TcpClient.DisconnectInternal | src/main/java/com/example/esp32control/TcpClient.kt:72-78 | the fields end as `AfterDisconnectInternal` says |
| Tcp.TcpClient.ReadLoop | src/main/java/com/example/esp32control/TcpClient.kt:33-39 | while the loop condition holds, the lines delivered and the failure caught are exactly those of `Receive`, and one message is reported per line |
| Tcp.TcpClient.RunReader | src/main/java/com/example/esp32control/TcpClient.kt:32-44 | the loop, the guarded `Read error: …` and the `finally` teardown leave the fields as `AfterReader` says |
| Dispatch.DirectionFrom | src/main/java/com/example/esp32control/MainActivity.kt:199-206 | the result is always a directional command, and it is `stop` exactly inside the dead zone |
| Dispatch.DirectionRegions | src/main/java/com/example/esp32control/MainActivity.kt:199-206 | each command is given exactly on its region: dominant axis and sign outside the dead zone, with ties going to the vertical axis |
| Dispatch.DirectionExamples | src/main/java/com/example/esp32control/MainActivity.kt:199-206 | a horizontal lean gives `right`, a vertical lean `forward`, a tied diagonal down `backward`, the centre `stop` |
| Dispatch.DeadZoneSampleStops | src/main/java/com/example/esp32control/MainActivity.kt:136-138 | a joystick sample inside the view's dead zone, or the released sample, quantises to `stop` |
| Dispatch.ButtonCommand | src/main/java/com/example/esp32control/MainActivity.kt:151-163 | exactly the four direction buttons and the stop button send a directional command |
| Dispatch.SpeedCommand | src/main/java/com/example/esp32control/MainActivity.kt:126 | the command is `set_speed:` followed by a canonical numeral (no leading zero unless 0) whose decimal value is the slider position, and it is never a directional command |
| Dispatch.SpeedCommandReadsBack | src/main/java/com/example/esp32control/MainActivity.kt:124-126 | the number after `set_speed:` parses with `toIntOrNull` back to the slider position |
| Dispatch.SendCmd | src/main/java/com/example/esp32control/MainActivity.kt:189-193 | the command is always logged, goes to the client only if there is one, and nothing else changes |
| Dispatch.OnMove | src/main/java/com/example/esp32control/MainActivity.kt:133-148 | the sample is stored with y negated; the stick is pressed exactly when the sample is pressed and a client exists; a ticker run is posted only when the stick goes from not pressed to pressed; nothing is sent |
| Dispatch.Initial | src/main/java/com/example/esp32control/MainActivity.kt:38-44 | the activity as created; `Dispatch.InitialInv` proves the invariant of it and `Activity.MainActivity.constructor` starts there |
| Dispatch.Desired | src/main/java/com/example/esp32control/MainActivity.kt:54 | the ticker's target is always a directional command |
| Dispatch.RunTicker | src/main/java/com/example/esp32control/MainActivity.kt:51-74 | afterwards the last direction is the target (the desired direction while pressed, `stop` when released); the target is sent exactly when it differs from the last direction; the ticker posts itself again exactly while pressed |
| Dispatch.Click | src/main/java/com/example/esp32control/MainActivity.kt:151-163 | the button's command is logged and goes to the client if there is one; only the direction and stop buttons set it as the last direction; nothing else changes |
| Dispatch.SpeedReleased | src/main/java/com/example/esp32control/MainActivity.kt:120-129 | with a client, `set_speed:<progress>` is sent (512 without a slider) and recorded; without one, nothing changes |
| Dispatch.Endpoint | src/main/java/com/example/esp32control/MainActivity.kt:171-172 | the host dialled is the trimmed address field; the port is the parsed port field, or 12345 when it does not parse, and either way within the `Int` range |
| Dispatch.SavedEndpointReadsBack | src/main/java/com/example/esp32control/MainActivity.kt:173-174 | the saved address is the one given, the saved port text parses back to the same port, and every other setting is kept |
| Dispatch.SaveEndpoint | src/main/java/com/example/esp32control/MainActivity.kt:173-174 | the two settings `connect` saves; `Dispatch.SavedEndpointReadsBack` states what they hold |
| Dispatch.Connect | src/main/java/com/example/esp32control/MainActivity.kt:170-181 | a client exists, one connect call is made to the parsed endpoint, that endpoint is what is saved, and nothing else changes |
| Dispatch.Disconnect | src/main/java/com/example/esp32control/MainActivity.kt:183-187 | no client and no pressed stick remain, the client (if any) is asked to disconnect, and nothing else changes: nothing is sent, and the sample, last direction, speed, pending runs and settings are kept |
| Dispatch.ConnectClicked | src/main/java/com/example/esp32control/MainActivity.kt:108-110 | without a client the button connects and with one it disconnects, so it toggles whether a client exists |
| Dispatch.OnError | src/main/java/com/example/esp32control/MainActivity.kt:231-238 | only the client is dropped |
| Dispatch.Tick | src/main/java/com/example/esp32control/MainActivity.kt:51-74 | the handler running the next posted ticker run, if any; `Dispatch.SettledTickQuiet`, `Dispatch.TicksSendAtMostOne` and `Dispatch.PressedTickSendsOnChange` state what it sends |
| Dispatch.Step | src/main/java/com/example/esp32control/MainActivity.kt:108-166 | each event goes to the listener wired to it, and a pause runs the corrected `Dispatch.Pause`; `Dispatch.StepPreservesInv` proves the invariant is kept |
| Dispatch.Run | src/main/java/com/example/esp32control/MainActivity.kt:108-166 | events handled in order; `Dispatch.RunPreservesInv` proves the invariant over any sequence of them |
| Dispatch.PauseAsWritten | src/main/java/com/example/esp32control/MainActivity.kt:240-247 | with a client, `stop` is sent and the client disconnected, but the last direction is kept; nothing else changes, and without a client nothing happens |
| Dispatch.Pause | src/main/java/com/example/esp32control/MainActivity.kt:240-247 | with a client, `stop` is sent, recorded as the last direction and the client disconnected; nothing else changes, and without a client nothing happens |
| Dispatch.LastDirection | src/main/java/com/example/esp32control/MainActivity.kt:43 | the latest directional command in a log is a directional command (`stop` for a log without one) |
| Dispatch.LastDirectionAppend | src/main/java/com/example/esp32control/MainActivity.kt:189-193 | logging a directional command makes it the latest; any other command leaves the latest unchanged |
| Dispatch.InitialInv | src/main/java/com/example/esp32control/MainActivity.kt:38-44 | the invariant holds on the activity as created |
| Dispatch.StepPreservesInv | src/main/java/com/example/esp32control/MainActivity.kt:51-247 | every handler, with the corrected `onPause`, keeps the last direction sent equal to the latest directional command logged (passed to `sendCmd`, with or without a client), and keeps a ticker run posted while the stick is pressed |
| Dispatch.RunPreservesInv | src/main/java/com/example/esp32control/MainActivity.kt:51-247 | the invariant (last direction equal to the latest directional command logged, a run posted while pressed) holds after any sequence of events handled with the corrected `onPause` |
| Dispatch.PauseAsWrittenBreaksInv | src/main/java/com/example/esp32control/MainActivity.kt:240-247 | after a non-stop direction, the source's `onPause` leaves the last direction out of step with the `stop` it sent |
| Dispatch.ForwardAfterConnect | src/main/java/com/example/esp32control/MainActivity.kt:151 | after connect and the forward button, `forward` is the last direction and has been sent |
| Dispatch.ReconnectAndPushForward | src/main/java/com/example/esp32control/MainActivity.kt:51-65 | after reconnecting and pushing the stick forward, the ticker sends `forward` exactly when `forward` is not already the recorded last direction |
| Dispatch.PauseAsWrittenSuppressesForward | src/main/java/com/example/esp32control/MainActivity.kt:240-247 | forward button, pause, reconnect, stick forward: with the source's `onPause` the robot's last command stays the pause's `stop` |
| Dispatch.PauseThenPushSendsForward | src/main/java/com/example/esp32control/MainActivity.kt:240-247 | the same run with the corrected pause sends `forward` |
| Dispatch.ButtonWithoutClientSuppressesForward | src/main/java/com/example/esp32control/MainActivity.kt:151-193 | a forward button pressed without a client sends nothing yet records `forward` and keeps the invariant; after a connect, pushing the stick forward then sends nothing but the connect |
| Dispatch.SettledTickQuiet | src/main/java/com/example/esp32control/MainActivity.kt:61-71 | once the last direction is the target, a ticker run sends nothing and stays settled |
| Dispatch.SettledTicksQuiet | src/main/java/com/example/esp32control/MainActivity.kt:61-71 | once settled, any number of ticker runs send nothing |
| Dispatch.TicksSendAtMostOne | src/main/java/com/example/esp32control/MainActivity.kt:51-74 | any number of ticker runs on the same sample send at most one command, and that command is the final last direction |
| Dispatch.PressedTickSendsOnChange | src/main/java/com/example/esp32control/MainActivity.kt:53-65 | while pressed, a ticker run sends exactly when the desired direction differs from the last one, and posts itself again |
| Dispatch.ReleaseSendsOneStop | src/main/java/com/example/esp32control/MainActivity.kt:66-72 | releasing a stick that was driving, then one ticker run, sends exactly one `stop` (forwarded if there is a client) and ends the ticker |
| Dispatch.DeadZoneTouchStops | src/main/java/com/example/esp32control/JoystickView.kt:64-70 | with a client, a touch in the view's dead zone and one ticker run leave `stop` as the last direction, sent only if it was not already last |
| Activity.MainActivity.constructor | src/main/java/com/example/esp32control/MainActivity.kt:34-44 | the fields start as `Dispatch.Initial` says: not pressed, last direction `stop`, last speed -1, no client |
| Activity.MainActivity.SendCmd | src/main/java/com/example/esp32control/MainActivity.kt:189-193 | the fields end as `Dispatch.SendCmd` says |
| Activity.MainActivity.OnMove | src/main/java/com/example/esp32control/MainActivity.kt:133-148 | the fields end as `Dispatch.OnMove` says |
| Activity.MainActivity.RunTicker | src/main/java/com/example/esp32control/MainActivity.kt:51-74 | the fields end as `Dispatch.RunTicker` says |
| Activity.MainActivity.Click | src/main/java/com/example/esp32control/MainActivity.kt:151-163 | the fields end as `Dispatch.Click` says |
| Activity.MainActivity.SpeedReleased | src/main/java/com/example/esp32control/MainActivity.kt:120-129 | the fields end as `Dispatch.SpeedReleased` says |
| Activity.MainActivity.Connect | src/main/java/com/example/esp32control/MainActivity.kt:170-181 | the fields end as `Dispatch.Connect` says |
| Activity.MainActivity.Disconnect | src/main/java/com/example/esp32control/MainActivity.kt:183-187 | the fields end as `Dispatch.Disconnect` says |
| Activity.MainActivity.ConnectClicked | src/main/java/com/example/esp32control/MainActivity.kt:108-110 | the fields end as `Dispatch.ConnectClicked` says |
| Activity.MainActivity.OnError | src/main/java/com/example/esp32control/MainActivity.kt:231-238 | the fields end as `Dispatch.OnError` says |
| Activity.MainActivity.OnPause | src/main/java/com/example/esp32control/MainActivity.kt:240-247 | the fields end as the corrected `Dispatch.Pause` says |
| Activity.MainActivity.OnPauseAsWritten | src/main/java/com/example/esp32control/MainActivity.kt:240-247 | the fields end as `Dispatch.PauseAsWritten` says: `stop` sent, client disconnected, last direction kept |
| Activity.MainActivity.Handle | src/main/java/com/example/esp32control/MainActivity.kt:51-247 | delivering an event leaves the fields as `Dispatch.Step` says |
| Activity.MainActivity.HandleAll | src/main/java/com/example/esp32control/MainActivity.kt:51-247 | delivering a sequence of events leaves the fields as `Dispatch.Run` says, and the invariant is kept (with the corrected `onPause`) |

## Left out

- Sockets, threads and timing. Each thread body (connect, each send, the teardown of `disconnect`, the reader) runs as one atomic step. Interleavings of concurrent sends are not modelled, and neither is a reader racing a foreground disconnect.
- Dispatch.Pause: its calls `[Send("stop"), Close]` are in the order the activity issues them, not the order the client's threads run them. A send thread and the teardown thread of a following `disconnect` are not ordered (TcpClient.kt:54, 69). So `onPause`'s `stop` can find the writer already gone and report `No conectado` instead of reaching the car. `Tcp.ApplyAll` can express that order (`DisconnectStep` before `SendStep`), but the activity model does not connect its calls to client steps.
- The connect timeout of 4000 ms and `tcpNoDelay` are socket options with no observable effect in the model. The outcome of a connect is a parameter.
- Send failures (`Send error: …`) are not modelled. A `PrintWriter` created with auto-flush swallows I/O errors rather than throwing them, and the catch at TcpClient.kt:61-62 is not reached in the model.
- The listener may be null in `TcpClient`. The activity always passes itself, so the model always reports events.
- A client's second `connect` while a reader still runs is not modelled. The activity creates a new client for every connect, and `Tcp.Apply` does not apply a connect step to a client whose reader thread is still alive.
- Text.ToIntOrNull: only ASCII digits are modelled. Kotlin also accepts other Unicode decimal digits.
- Joystick.Track: the view computes in 32-bit `Float`; the model uses exact reals. So `0.08f` is taken as exactly 0.08, and rounding at the dead-zone and clamp boundaries is not captured.
- Dispatch.DirectionFrom: `directionFrom` also compares in `Float` against its own literal `0.08f`. The model uses the exact real 0.08, the same constant as the view's dead zone.
- Dispatch.StepPreservesInv, Dispatch.RunPreservesInv and Activity.MainActivity.HandleAll: these hold for the activity with the corrected `onPause`. `onPause` as written is `Dispatch.PauseAsWritten`, which breaks the invariant (`Dispatch.PauseAsWrittenBreaksInv`).
- Joystick.Track: `requires radius > 0`. Before the view is laid out its radius is 0, and Kotlin's floating-point division then yields infinities or NaN. The model leaves that case out.
- The square root, `atan2`, `cos` and `sin` only place the knob on screen. The distance is an input, and the knob position and drawing are left out.
- The 80 ms period is not modelled: the handler firing a posted ticker run is the `TickerFires` event.
- The settings and log database (`DbHelper`) is a map and a sequence. `LogsActivity`, the screen texts, the toast, `updateLogInfo` and the listener's screen updates in `onConnected`, `onDisconnected` and `onMessage` are left out.
- The removed policy that derived speed from the joystick (`speedDeltaMin`) is not in the code's behaviour and is not modelled.

## Findings

| source | as written | input that shows it | evidently intended | confidence | as-written member | corrected member |
|---|---|---|---|---|---|---|
| src/main/java/com/example/esp32control/MainActivity.kt:240-247 | `onPause` sends `stop` but does not set `lastDirSent`, so the activity still believes the last direction sent was the previous one | connect, press the forward button, pause, reconnect, push the stick fully forward: the ticker sees `forward` as already sent and sends nothing, so the car stays stopped | record the `stop` as the last direction, as every other sender of a directional command does | not executed; follows from the handler code as written | Dispatch.PauseAsWrittenSuppressesForward | Dispatch.Pause |
