# Robot control page: a Dafny model

This project models the browser side of a remote-controlled robot
(`web/app.js`). The page opens three WebSockets to a relay server:
- a video socket delivering JPEG frames;
- a thermal socket delivering JPEG frames;
- a command socket carrying JSON commands.

Either view can instead stream MJPEG from the server. Incoming frames are
shown through object URLs, with one frame in flight per image element. A
periodic checker declares the robot offline when frames stop. A "capture"
button sends the latest frame to a plant-disease model and shows the label,
the confidence and the ranked per-class confidences.

The model is split into these modules:

- `Options`, `Text`, `Endpoints` (`text.dfy`): `String(n)`,
  `String.prototype.trim`, `getServerBase`, `getWsBase` and the socket and
  stream URLs.
- `JsValues`, `Prediction` (`prediction.dfy`): parsed JSON values,
  `extractPrediction`, the percentage scaling of `formatConfidence` and
  `formatConfidenceValue`, and the filter-and-stable-sort pipeline of
  `renderAllConfidences`.
- `Liveness` (`liveness.dfy`): the three liveness counters and
  `checkRobotOffline`'s test.
- `FrameSlot` (`frame_slot.dfy`): a class per image slot (`{pending,
  currentUrl}` plus its element's `src`) over a class for the browser's
  object-URL registry. `updateImageFromBuffer`, `resetImageState` and the
  `load` listeners are methods that update them in place.
- `Links` (`links.dfy`): the connection as a value. It holds every socket
  created, with its ready state, and the three socket references. It also
  holds the checker flag, the counters and the cached frame. The module
  defines what connect, disconnect and each socket event do to that value.
  Two properties are proved about it:
  - `Wired`: every socket that can still open or deliver a message is a
    current reference. Every operation keeps it.
  - `Covered`: an open video socket implies a running checker. Connect and
    disconnect establish it, and every event keeps it except the video
    close handler as the page writes it (see "## Findings").
- `Session` (`session.dfy`): the page as a class, `SessionManager`.
  - Every browser callback is a method: `connectSockets`,
    `disconnectSockets`, each socket's handlers, the image `load`
    listeners, the checker's tick, `captureAndPredict` cut at its `await`s,
    `sendCommand` and `sendDriveCommand`.
  - Each callback method states its new state in terms of the `Links` and
    `FrameSlot` functions and keeps `Valid()`: valid slots, a wired
    connection, and the capture flag in step with the capture's progress.
    The smaller steps the callbacks are cut into (`CountFrame`,
    `ResetSlots`, `OpenVideo`, ...) state their effect for their caller.
  - The browser's own step from OPEN to CLOSING, before a close event, is
    the method `OnClosingStarted`: no handler runs, but the socket delivers
    nothing more and `sendCommand` finds the command socket not open.
  - Whether the browser's `WebSocket` constructor accepts the socket URLs is
    the `accepted` parameter of `Connect`. When it refuses them, the first
    `new WebSocket` throws and the rest of `connectSockets` does not run.

## Model

| member | source | states |
|---|---|---|
| Text.NatToString | web/app.js:326 | `String(n)` gives at least one decimal digit, and starts with `0` only for zero |
| Text.NatToStringRoundTrip | web/app.js:326 | reading the digits of `String(n)` back gives `n` |
| Text.Trim | web/app.js:451-454 | `trim()` returns a middle slice of the input with whitespace-only margins; the slice neither starts nor ends with whitespace; it is empty exactly when the input is all whitespace |
| Endpoints.StripTrailingSlashes | web/app.js:150-152 | the result is a prefix of the input that does not end in `/`, and only slashes were removed |
| Endpoints.WsBase | web/app.js:154-158 | an empty server base gives ""; `http:` becomes `ws:` and `https:` becomes `wss:`; any other base is kept as it is |
| Endpoints.WsBaseEmpty | web/app.js:154-158 | the socket base is empty exactly when the configured URL is empty or only slashes, the case `connectSockets` rejects |
| Endpoints.ServerBase | web/app.js:150-152 | `getServerBase()` is a prefix of the configured URL that does not end in `/`, and only slashes were cut |
| Endpoints.StreamUrl | web/app.js:326-366 | the MJPEG stream URL; `StreamUrlTimeStamp` and `StreamUrlFresh` state its shape and that each time gives its own URL |
| Endpoints.StreamUrlTimeStamp | web/app.js:326-366 | a stream URL starts with the server base and ends with `?t=` and the time stamp, whose digits read back as the time |
| Endpoints.StreamUrlFresh | web/app.js:326-366 | streams asked for at different times have different URLs, so the time stamp defeats caching |
| Endpoints.SocketUrl | web/app.js:334-390 | the socket URL of a channel; `SocketUrlShape` and `SocketUrlsDistinct` state its shape and that each channel gets its own |
| Endpoints.SocketUrlShape | web/app.js:334-390 | a socket URL starts with the socket base and `/ws/`, and ends with the robot id as given |
| Endpoints.SocketUrlsDistinct | web/app.js:334-390 | the video, thermal and command sockets of one robot have three different URLs |
| JsValues.Get | web/app.js:80-92 | a property read is undefined exactly when no property has that name; otherwise it is the value of a property with that name |
| Prediction.FirstDefinedSpec | web/app.js:80-92 | the first-defined reading of a key list is never null; it is undefined exactly when every key is null or undefined; otherwise it is the value of the earliest key that is neither |
| Prediction.ChainIsFirstDefined | web/app.js:80-92 | an `a ?? b ?? ... ?? tail` chain equals the first defined key's value, or the tail when there is none |
| Prediction.MaxOf | web/app.js:92 | `Math.max(...scores)` is finite exactly when the array is non-empty and all numeric; it is then an upper bound that one element attains |
| Prediction.ExtractPrediction | web/app.js:78-97 | a payload that is not an object gives the "--" pair; the label is never null and a confidence field is never null (null and undefined fall through the chain); the order of the chains is `LabelPriority` and `ConfidencePriority` |
| Prediction.LabelPriority | web/app.js:80-86 | the label is the first non-nullish label field (falsy values kept); otherwise a present `healthy` decides "Healthy" or "Unhealthy"; otherwise "--" |
| Prediction.ConfidencePriority | web/app.js:87-92 | the confidence is the first non-nullish confidence field; otherwise the maximum of a `scores` array; otherwise "--" |
| Prediction.Scale | web/app.js:66 | a value up to 1 is a fraction and is multiplied by 100 (a fraction in [0,1] lands in [0,100]); a larger value is kept as a percentage |
| Prediction.FractionAndPercentAgree | web/app.js:62-68 | a fraction above 0.01 and the same value given as a percentage display the same percentage |
| Prediction.PercentOf | web/app.js:70-76 | `formatConfidenceValue` shows a percentage exactly for a non-null finite number, and it is that number scaled |
| Prediction.ConfidencePercent | web/app.js:62-68 | `formatConfidence` shows a percentage exactly for a non-null field that is a finite number, or for a finite `scores` maximum, and that percentage is the number scaled |
| Prediction.ConfidenceExample | web/app.js:62-68 | 0.873 and 87.3 both show as 87.3% |
| Prediction.FiniteEntries | web/app.js:105-106 | the filter keeps exactly the entries whose `Number(value)` is finite, each with that number, and invents none |
| Prediction.FiniteEntriesAppend | web/app.js:105-106 | the filter keeps the entries in their original order: filtering a concatenation concatenates the filtered parts |
| Prediction.SortDescending | web/app.js:107 | the sort yields entries in descending score order and is a permutation of its input |
| Prediction.SortStable | web/app.js:107 | entries with equal scores keep their relative order, since `Array.prototype.sort` is stable |
| Prediction.RenderAllConfidences | web/app.js:99-120 | a ranked list is shown exactly when the value is an object or array with at least one finite entry; otherwise "--" |
| Prediction.RenderedRows | web/app.js:105-119 | the rows are the finite entries ranked by `SortDescending` (highest first, ties in object order), each with its percentage; there are rows exactly when there is a finite entry |
| Prediction.Display | web/app.js:112-119 | one row per ranked entry, in rank order, each with the entry's name and its `formatConfidenceValue` percentage |
| Prediction.RankedExample | web/app.js:99-120 | `{"rust": 0.2, "blight": 0.7, "healthy": 0.1}` renders blight 70%, rust 20%, healthy 10% |
| Liveness.ForgetLive | web/app.js:210-222 | starting or stopping the checker zeroes the last live time and keeps the other two counters |
| Liveness.AfterFrame | web/app.js:337-344 | a frame adds one to the count; the first frame alone sets the first-frame time and every later one sets the last live time; coherent counters stay coherent |
| Liveness.Offline | web/app.js:193-197 | with coherent counters the robot is never offline before its first frame; `OfflineFromZero`, `LiveOnFrame` and `OfflineStays` state the rest |
| Liveness.CoherentKept | web/app.js:336-345 | a frame, a checker start or stop, and a connect's reset all keep the counters coherent (no live time before the second frame, no first-frame time before the first) |
| Liveness.FramesFromZero | web/app.js:336-345 | after a connect and frames at given times: the count is the number of frames; the first-frame time is the first frame's; the last live time is the latest frame's once there are two |
| Liveness.OfflineFromZero | web/app.js:193-197 | after a connect, the robot is offline exactly when a lone frame is older than 10 s or the latest of several frames is older than 10 s; no frames never counts |
| Liveness.LiveOnFrame | web/app.js:193-197 | at the moment a frame arrives the robot is never reported offline |
| Liveness.OfflineStays | web/app.js:193-197 | once offline, the robot stays offline as time passes without frames |
| FrameSlot.ObjectUrls.CreateObjectUrl | web/app.js:164-165 | a new URL, distinct from every earlier one, for a blob holding the frame |
| FrameSlot.ObjectUrls.RevokeObjectUrl | web/app.js:169 | the URL is logged as revoked; the blobs are unchanged |
| FrameSlot.ImageSlot.constructor | web/app.js:47-48 | a slot starts with nothing pending and no URL |
| FrameSlot.ImageSlot.Offer | web/app.js:160-172 | while a frame is pending nothing changes; otherwise the fresh URL is shown and pending, and the previous URL is revoked exactly once after the element moved off it; every let-go URL stays revoked exactly once, the live one never, and the other slot stays valid |
| FrameSlot.ImageSlot.Install | web/app.js:164-171 | the non-pending path of `updateImageFromBuffer`, with the same guarantees |
| FrameSlot.ImageSlot.Reset | web/app.js:174-183 | the live URL is revoked once (while still shown), and the record and the element are cleared |
| FrameSlot.ImageSlot.MarkDisplayed | web/app.js:523-526 | the `load` listener clears `pending` only |
| FrameSlot.ImageSlot.ShowStream | web/app.js:327-329 | in MJPEG mode the element streams the URL and the record is cleared without a revoke |
| Links.Close | web/app.js:408-412 | `close()` leaves a socket unable to open or deliver, and changes nothing on a socket already closing or closed |
| Links.CloseRefsSpec | web/app.js:408-412 | closing through the three references closes exactly the referenced sockets |
| Links.CloseEach | web/app.js:408-412 | the `forEach` loop's result is the closing of every non-null reference |
| Links.NewSockets | web/app.js:334-390 | a connect creates video unless it streams MJPEG, then thermal when a thermal view does not stream MJPEG, then command, last; each is connecting, with the robot id and its channel's `/ws/<channel>/client/<robotId>` URL |
| Links.DroppedQuiet | web/app.js:406-417 | after `disconnectSockets` no socket can open or deliver a message any more; the sockets keep their channels; the connection stays wired and covered |
| Links.DroppedDown | web/app.js:406-417 | a disconnect drops every reference, the cached frame, `firstFrameSeen`, the checker and the live time; on a dropped connection it changes nothing |
| Links.DroppedIdempotent | web/app.js:406-428 | disconnecting twice is disconnecting once |
| Links.Dropped | web/app.js:406-417 | a disconnect leaves the connection down, keeps every socket in place, and keeps the frame count and first-frame time |
| Links.ZeroedDown | web/app.js:313-315 | zeroing the counters of a dropped connection keeps it wired, covered and dropped |
| Links.ConnectedKeepsOld | web/app.js:311-404 | a connect zeroes the counters and leaves every earlier socket closed in its place; with a socket base the checker runs exactly when video streams MJPEG; when the sockets are created, a command socket is referenced and a video socket exists exactly when the checker is not started at once; when the base is empty or the URLs are refused, no socket is created and no reference set |
| Links.OpenedWired | web/app.js:323-390 | the new sockets and references keep the connection wired and covered |
| Links.RefusedWired | web/app.js:323-334 | a connect whose socket URLs are refused leaves the connection wired and covered |
| Links.ConnectedWired | web/app.js:311-404 | `connectSockets` leaves the connection wired and covered, whether the sockets are created, refused, or there is no socket base |
| Links.Connected | web/app.js:311-404 | a connect leaves zeroed counters, no cached frame and `firstFrameSeen` false, and never removes a socket; `ConnectedKeepsOld` and `ConnectedWired` state the rest |
| Links.CurrentSocket | web/app.js:336-402 | a socket that can still open or deliver is the current reference of its own channel |
| Links.AfterOpen | web/app.js:347-351 | an open changes only that socket, to open, keeps the references, and starts the checker exactly for a video socket |
| Links.AfterOpenWired | web/app.js:347-351 | only a current socket can open; the connection stays wired; a covered connection stays covered, since a video socket's open starts the checker |
| Links.AfterClose | web/app.js:352-356 | with the guarded handler a close changes only that socket, to closed, keeps the references, and stops the checker exactly for the current video socket |
| Links.AfterCloseAsWritten | web/app.js:352-356 | with the handler as written a close changes only that socket, to closed, keeps the references, and stops the checker for every video socket |
| Links.AfterCloseWired | web/app.js:352-356 | with the guarded handler a close keeps the connection wired, and covered if it was |
| Links.AfterCloseAsWrittenWired | web/app.js:352-356 | the unguarded handler keeps the connection wired |
| Links.FramedWired | web/app.js:336-383 | image messages keep the connection wired, and covered if it was |
| Links.ClosingStarted | web/app.js:406-446 | the browser moves an open socket to CLOSING on its own; `ClosingStartedWired` states what that leaves |
| Links.ClosingStartedWired | web/app.js:406-446 | once the browser starts closing an open socket, the socket delivers nothing and `close()` skips it, a command socket no longer counts as open, and the connection stays wired, and covered if it was |
| Links.StaleVideoCloseStopsChecker | web/app.js:352-356 | connect, open, reconnect, open, then the first video socket's late close: the video socket is open and the checker is off |
| Session.ParsedPayload | web/app.js:282-288 | the payload is the parsed JSON, or `{raw: text}` when parsing threw |
| Session.ModelError | web/app.js:278-281 | the message is "Model error (", the status in decimal (which reads back as the status), "): " and the response body |
| Session.FailureText | web/app.js:295-301 | the CORS hint in MJPEG mode without a cached frame; otherwise the error's message, or "Prediction failed" when the message is empty |
| Session.SessionManager.constructor | web/app.js:37-48 | the page loads with no sockets, no references, zero counters and no capture in flight |
| Session.SessionManager.ResetSlots | web/app.js:418-419 | both slots are reset and their live URLs revoked |
| Session.SessionManager.Disconnect | web/app.js:406-428 | the connection becomes `Dropped` of the old one and is covered; both slots are cleared with their URLs revoked; status "disconnected"; a second call changes nothing |
| Session.SessionManager.OpenVideo | web/app.js:323-358 | MJPEG: the stream URL is shown and the checker started; otherwise a video socket is created and referenced, or nothing happens when the URL is refused |
| Session.SessionManager.OpenThermal | web/app.js:360-388 | nothing without a thermal view; MJPEG: the stream URL is shown; otherwise a thermal socket is created and referenced, or nothing happens when the URL is refused |
| Session.SessionManager.OpenChannels | web/app.js:323-390 | the connection becomes `Opened` of the dropped one, or `Refused` when the URLs are refused (the thermal block then runs only after an MJPEG video view); statuses and element sources per mode |
| Session.SessionManager.StartSession | web/app.js:313-404 | zeroed counters; "server url required" and nothing opened without a socket base; otherwise the channels are opened or refused; the page stays valid and covered |
| Session.SessionManager.Connect | web/app.js:311-404 | the connection becomes `Connected` of the old one; old URLs revoked; statuses and element sources per mode and per refusal; the page stays valid and covered |
| Session.SessionManager.OnSocketOpen | web/app.js:347-398 | `AfterOpen`; the video socket shows "waiting for robot" and starts the checker; the command socket shows "command connected"; valid and covered are kept |
| Session.SessionManager.OnSocketClose | web/app.js:352-402 | the guarded close: `AfterClose`, and status changes only for a current socket; valid and covered are kept |
| Session.SessionManager.OnSocketCloseAsWritten | web/app.js:352-402 | the close as written: `AfterCloseAsWritten`, and status changes for every video or command socket; the page stays valid, but not necessarily covered |
| Session.SessionManager.OnClosingStarted | web/app.js:406-446 | the browser starts closing an open socket: the connection becomes `ClosingStarted`, nothing else changes, a command socket is then not open for `sendCommand`, and valid and covered are kept |
| Session.SessionManager.CountFrame | web/app.js:337-344 | the counters advance by `AfterFrame`; from the second frame on the status shows "connected" |
| Session.SessionManager.OnVideoMessage | web/app.js:336-346 | the message comes from the current video socket; the counters advance and the frame is cached; a pending slot changes nothing; otherwise the frame's fresh URL is shown and pending and the old one revoked; valid and covered are kept |
| Session.SessionManager.OnThermalMessage | web/app.js:374-383 | the message comes from the current thermal socket; the counters advance; a pending slot changes nothing; otherwise the frame's fresh URL is shown and pending and the old one revoked; valid and covered are kept |
| Session.SessionManager.OnCommandMessage | web/app.js:391-394 | the message comes from the current command socket and goes on top of the log; the page stays valid |
| Session.SessionManager.OnVideoLoad | web/app.js:523-531 | the pending flag is cleared and `firstFrameSeen` set; valid and covered are kept |
| Session.SessionManager.OnThermalLoad | web/app.js:534-538 | the pending flag is cleared |
| Session.SessionManager.CheckRobotOffline | web/app.js:193-208 | no object URL is ever created; when `Offline` holds: status "robot offline", both slots cleared and their URLs revoked; otherwise nothing changes; the page stays valid |
| Session.SessionManager.Tick | web/app.js:193-214 | the check acts only while the checker is started; no object URL is created; when it fires, status "robot offline", both slots cleared and their URLs revoked; otherwise nothing changes |
| Session.SessionManager.BeginCapture | web/app.js:237-257 | single flight: a click during a capture changes nothing; no model URL: a message and no capture; otherwise the flag is set and the cached frame is sent, or a frame is taken from the element |
| Session.SessionManager.Fail | web/app.js:295-308 | the failure text and a "--" list are shown, and the flag is released; the page stays valid |
| Session.SessionManager.OnFrameCaptured | web/app.js:252-265 | a captured frame is sent; a capture error fails the flow |
| Session.SessionManager.ShowExtracted | web/app.js:290-292 | the label and confidence shown are those `extractPrediction` finds, the confidence as `formatConfidence` shows it |
| Session.SessionManager.ShowRanked | web/app.js:293-294 | the list shown is `RenderAllConfidences` of the payload's `all_confidences`, and the status "Prediction complete." |
| Session.SessionManager.ShowPrediction | web/app.js:282-294 | label and confidence come from `ExtractPrediction`; a `null` payload then fails; any other shows `RenderAllConfidences` of `all_confidences` and "Prediction complete." |
| Session.SessionManager.OnModelReply | web/app.js:271-294 | a rejected or non-OK reply fails and keeps label and confidence; an OK reply goes on as `ShowPrediction`; the flag is always released |
| Session.SessionManager.SendCommand | web/app.js:445-464 | without an open command socket, only the status changes; a blank input sends nothing; otherwise the trimmed text is sent, logged and the input cleared; something is sent exactly when the socket is open and the input is not all whitespace |
| Session.SessionManager.SendDriveCommand | web/app.js:430-443 | nothing without an open command socket; otherwise the command with its speed is sent and logged |

## Left out

- `log`, `console.log` and the `onerror` handlers only write to the console.
- Button disabling during a capture is not modelled.
- Keyboard bindings, the hold-to-drive buttons and the speed dial's display
  are not modelled. The dial's value is the `speed` parameter of
  `SendDriveCommand`.
- Timers are not modelled. `Tick` is one period of `setInterval`; the
  30-second model timeout and the abort are a `Rejected` reply.
- `Date.now()` is the `now` parameter.
- The capture preview and its 30-second revoke timer are not modelled.
- `encodeURIComponent` is not modelled: the robot id is inserted into the
  stream URL as it is.
- `JSON.parse` is not modelled: its result is the `parsed` parameter, and
  None stands for a parse error.
- `JsValues.ToNumber` treats strings and arrays as non-numeric; the page's
  `Number(...)` parses numeric strings.
- Rounding is not modelled. Percentages are exact reals; `Math.round`,
  `toFixed(2)` and the `%` suffix are left out.
- Floating point is not modelled: numbers are reals, and NaN and infinities
  are None.
- `blobFromImageElement` is not modelled step by step. Its outcome is a
  parameter: a frame or an error message.
- The two `await response.text()` calls are not modelled separately: the
  reply carries its body.
- `Session.NULL_PAYLOAD_MESSAGE`: the exact text of the TypeError depends on
  the JavaScript engine.
- URL parsing by the browser is not modelled. The `WebSocket` constructor
  throws `SyntaxError`, for example for a scheme other than ws(s) or a `#`
  in the robot id. The model takes that answer as the `accepted` parameter.
  It also assumes the answer is the same for the three socket URLs, which
  differ only in the fixed channel segment.
- The extra `el.src = ""` in MJPEG mode (lines 201-206 and 420-425) is not a
  separate step: `Reset` already clears the element.
- `Session.SessionManager.OnVideoMessage` caches the frame after counting it,
  not before; the two updates touch different state.
- The page's module-level connection variables are grouped into one `link`
  record, and sockets are indices into the list of every socket created.
- `rpi/send_frame.py`, the robot-side sender, is not part of this model.

## Findings

| source | as written | input that shows it | evidently intended | confidence | as-written member | corrected member |
|---|---|---|---|---|---|---|
| web/app.js:352-356 | `videoWs.onclose` always calls `stopRobotOfflineChecker` and sets "disconnected", even for a socket that a reconnect has already replaced | connect (video socket 0 opens), then reconnect: socket 0 is only told to close; new video socket 2 opens, starting the checker; then socket 0's close event arrives and stops it | a superseded socket's `onclose` should do nothing, so the checker keeps running while the current video socket is open | not executed | Links.StaleVideoCloseStopsChecker | Links.AfterCloseWired |
