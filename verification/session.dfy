/** The page's session state machine: connecting and disconnecting, the
    socket and image event handlers, the periodic offline check, the
    single-flight capture-and-predict flow and the command guard. Every
    browser callback is a method; a time stamp is a `now` parameter; what
    the page reads from a checkbox when a callback runs is a parameter too. */
module Session {
  import opened Options
  import opened Text
  import opened Endpoints
  import opened JsValues
  import opened Prediction
  import opened Liveness
  import opened FrameSlot
  import opened Links

  /** `client_id` of every command the page sends. */
  const CLIENT_ID := "web-control"

  /** What the page writes on the command socket (`JSON.stringify` of it). */
  datatype Payload =
    | TextCommand(clientId: string, command: string, ts: nat)
    | DriveCommand(clientId: string, command: string, speed: real, ts: nat)

  /** A line of the command log, which shows the newest line first. */
  datatype LogLine = FromRobot(data: string) | SentText(text: string) | SentDrive(command: string, speed: real)

  /** Where `captureAndPredict` is suspended: not running, awaiting the
      frame taken from the image element, or awaiting the model's reply for
      `blob`. */
  datatype Capture = Idle | AwaitingFrame | AwaitingResponse(blob: Frame)

  /** How `blobFromImageElement(videoEl)` settles. */
  datatype FrameOutcome = Captured(blob: Frame) | CaptureFailed(message: string)

  /** How the `fetch` to the model settles: rejected (network error or the
      30 s abort) or with a response and its body text. */
  datatype ModelReply = Rejected(message: string) | Reply(ok: bool, status: nat, body: string)

  /** The text shown when a capture fails in MJPEG mode with no cached frame. */
  const CORS_HINT := "Capture failed. MJPEG may be blocked by CORS; switch to WebSocket and try again."

  /** The message of the TypeError thrown by `payload.all_confidences` when
      the body is the JSON text `null`. */
  const NULL_PAYLOAD_MESSAGE := "Cannot read properties of null (reading 'all_confidences')"

  /** `payload` after `JSON.parse(text)`: the parsed value, or `{raw: text}`
      when parsing threw. */
  function ParsedPayload(body: string, parsed: Option<JsValue>): (p: JsValue)
    ensures parsed.Some? ==> p == parsed.value
    ensures parsed.None? ==> p.JObj? && Get(p.props, "raw") == Some(JStr(body))
  {
    if parsed.Some? then parsed.value else JObj([("raw", JStr(body))])
  }

  /** The error a non-OK response is turned into. It reads "Model error (",
      the status in decimal (which reads back as the status), "): " and
      the response body. */
  function ModelError(status: nat, body: string): (m: string)
    ensures var k := |NatToString(status)|;
      && |m| == 13 + k + 3 + |body|
      && m[..13] == "Model error ("
      && AllDigits(m[13..13 + k]) && DigitsValue(m[13..13 + k]) == status
      && m[13 + k..16 + k] == "): "
      && m[16 + k..] == body
  {
    var digits := NatToString(status);
    NatToStringRoundTrip(status);
    var m := "Model error (" + digits + "): " + body;
    assert m[13..13 + |digits|] == digits;
    assert m[13 + |digits|..16 + |digits|] == "): ";
    assert m[16 + |digits|..] == body;
    m
  }

  /** The `catch` block's status: the CORS hint when the video view streams
      MJPEG and no frame is cached, otherwise the error's message, or
      "Prediction failed" when it has none. */
  function FailureText(message: string, useMjpeg: bool, cached: Option<Frame>): (t: string)
    ensures t != ""
    ensures useMjpeg && cached.None? ==> t == CORS_HINT
    ensures !(useMjpeg && cached.None?) && message != "" ==> t == message
    ensures !(useMjpeg && cached.None?) && message == "" ==> t == "Prediction failed"
  {
    if useMjpeg && cached.None? then CORS_HINT
    else if message == "" then "Prediction failed"
    else message
  }

  class SessionManager {
    /** `SERVER_HTTP_BASE` and `MODEL_API_URL`. */
    const serverBase: string
    const modelApiUrl: string
    /** The registry of object URLs and the two frame slots over it. */
    const urls: ObjectUrls
    const video: ImageSlot
    const thermal: ImageSlot

    /** The connection variables `videoWs`, `thermalWs`, `commandWs`,
        `firstFrameSeen`, `robotOfflineCheckTimer`, the three liveness
        counters and `lastVideoBuffer`, with every socket the page created. */
    var link: LinkView
    var predictionInFlight: bool
    var capture: Capture
    /** The status line, without its "Status: " prefix. */
    var status: string
    var commandLog: seq<LogLine>
    /** Every message written on a socket, with the socket's id. */
    var sent: seq<(nat, Payload)>
    var predictionStatus: string
    /** The label and the confidence percentage shown; None is "--". */
    var predictionLabel: Option<JsValue>
    var predictionConfidence: Option<real>
    var predictionList: ConfidenceList

    /** The two slots are valid over the registry and share no URL. */
    ghost predicate SlotsValid()
      reads video, thermal, urls
    {
      video.hasElement && video.Valid(urls) && video.Partners(thermal, urls)
    }

    /** Everything the page keeps consistent: the slots, the connection
        (every socket that can still open or deliver is a current one), a
        thermal socket only on a page with a thermal view, and the flag
        saying whether a capture is under way. That the checker runs while
        the video socket is open (`Covered`) is not part of it: only the
        guarded close handler keeps it. */
    ghost predicate Valid()
      reads this, video, thermal, urls
    {
      && SlotsValid()
      && Wired(link)
      && (link.thermalWs.Some? ==> thermal.hasElement)
      && (predictionInFlight <==> !capture.Idle?)
    }

    /** The state `disconnectSockets` leaves. */
    ghost predicate Disconnected()
      reads this, video, thermal
    {
      && Down(link)
      && video.currentUrl == None && video.src == NoSrc && !video.pending
      && thermal.currentUrl == None && thermal.src == NoSrc && !thermal.pending
      && status == "disconnected"
    }

    /** The page as loaded, before its first `connectSockets`. */
    constructor (serverBase: string, modelApiUrl: string, hasThermal: bool)
      ensures Valid()
      ensures this.serverBase == serverBase && this.modelApiUrl == modelApiUrl
      ensures thermal.hasElement == hasThermal
      ensures link == Initial && !predictionInFlight
    {
      this.serverBase := serverBase;
      this.modelApiUrl := modelApiUrl;
      urls := new ObjectUrls();
      video := new ImageSlot(true);
      thermal := new ImageSlot(hasThermal);
      link := Initial;
      predictionInFlight, capture := false, Idle;
      status, commandLog, sent := "", [], [];
      predictionStatus, predictionLabel, predictionConfidence, predictionList := "", None, None, NoList;
    }

    /** `resetImageState` on the video slot, then on the thermal one. */
    method ResetSlots()
      requires SlotsValid()
      modifies video, thermal, urls
      ensures SlotsValid()
      ensures !video.pending && video.currentUrl == None && video.src == NoSrc
      ensures !thermal.pending && thermal.currentUrl == None && thermal.src == NoSrc
      ensures video.installed == old(video.installed) && thermal.installed == old(thermal.installed)
      ensures urls.blobs == old(urls.blobs)
      ensures urls.revoked == old(urls.revoked) + Released(old(video.currentUrl)) + Released(old(thermal.currentUrl))
      ensures old(video.currentUrl).None? ==> video.revokes == old(video.revokes)
      ensures old(thermal.currentUrl).None? ==> thermal.revokes == old(thermal.revokes)
    {
      video.Reset(urls, thermal);
      thermal.Reset(urls, video);
    }

    /** `disconnectSockets`: afterwards no socket can open or deliver a
        message, no reference or cached frame is left, the checker is
        stopped, both slots are reset and the status says so; the frame
        counters and the prediction panel are kept. A second call changes
        nothing further. */
    method Disconnect()
      requires Valid()
      modifies this`link, this`status, video, thermal, urls
      ensures Valid() && Disconnected() && Covered(link)
      ensures link == Dropped(old(link))
      ensures urls.blobs == old(urls.blobs)
      ensures urls.revoked == old(urls.revoked) + Released(old(video.currentUrl)) + Released(old(thermal.currentUrl))
      ensures old(Disconnected()) ==>
        && link == old(link) && urls.revoked == old(urls.revoked)
        && video.revokes == old(video.revokes) && thermal.revokes == old(thermal.revokes)
    {
      DroppedQuiet(link);
      DroppedDown(link);
      // stopRobotOfflineChecker
      link := link.(checkerRunning := false, counters := ForgetLive(link.counters));
      var closed := CloseEach(link.sockets, [link.videoWs, link.thermalWs, link.commandWs]);
      link := link.(sockets := closed, videoWs := None, thermalWs := None, commandWs := None,
                    firstFrameSeen := false, lastVideoBuffer := None);
      ResetSlots();
      status := "disconnected";
    }

    /** The video block of `connectSockets`: an MJPEG view streams from the
        server, clears the slot record by hand and starts the checker;
        otherwise the video socket is created, unless the browser refuses
        its URL and the constructor throws. */
    method OpenVideo(wsBase: string, robotId: string, useMjpeg: bool, accepted: bool, now: nat)
      requires SlotsValid() && video.currentUrl == None
      modifies this`link, this`status, video
      ensures SlotsValid() && video.currentUrl == None
      ensures link.sockets == old(link.sockets) + SocketIf(!useMjpeg && accepted, Video, wsBase, robotId)
      ensures useMjpeg ==>
        && link == old(link).(checkerRunning := true, counters := ForgetLive(old(link).counters))
        && status == "waiting for robot: " + robotId + " (mjpeg)"
        && !video.pending && video.src == StreamSrc(StreamUrl(ServerBase(serverBase), false, robotId, now))
      ensures !useMjpeg ==>
        && link == old(link).(sockets := link.sockets, videoWs := if accepted then Some(|old(link.sockets)|) else old(link.videoWs))
        && status == old(status) && video.src == old(video.src) && video.pending == old(video.pending)
    {
      if useMjpeg {
        video.ShowStream(urls, StreamUrl(ServerBase(serverBase), false, robotId, now));
        status := "waiting for robot: " + robotId + " (mjpeg)";
        // startRobotOfflineChecker
        link := link.(checkerRunning := true, counters := ForgetLive(link.counters));
      } else if accepted {
        link := link.(videoWs := Some(|link.sockets|),
                      sockets := link.sockets + [Socket(Video, SocketUrl(wsBase, Video, robotId), robotId, Connecting)]);
      }
    }

    /** The thermal block of `connectSockets`: nothing without a thermal
        view; an MJPEG view streams from the server and clears the slot
        record by hand; otherwise the thermal socket is created, unless the
        browser refuses its URL. */
    method OpenThermal(wsBase: string, robotId: string, useMjpegThermal: bool, accepted: bool, now: nat)
      requires SlotsValid() && thermal.currentUrl == None
      modifies this`link, thermal
      ensures SlotsValid() && thermal.currentUrl == None
      ensures video.src == old(video.src) && video.pending == old(video.pending)
      ensures var socket := thermal.hasElement && !useMjpegThermal && accepted;
        && link.sockets == old(link.sockets) + SocketIf(socket, Thermal, wsBase, robotId)
        && link == old(link).(sockets := link.sockets,
                              thermalWs := if socket then Some(|old(link.sockets)|) else old(link.thermalWs))
      ensures thermal.hasElement && useMjpegThermal ==>
        !thermal.pending && thermal.src == StreamSrc(StreamUrl(ServerBase(serverBase), true, robotId, now))
      ensures !(thermal.hasElement && useMjpegThermal) ==>
        thermal.src == old(thermal.src) && thermal.pending == old(thermal.pending)
    {
      if thermal.hasElement {
        if useMjpegThermal {
          thermal.ShowStream(urls, StreamUrl(ServerBase(serverBase), true, robotId, now));
        } else if accepted {
          link := link.(thermalWs := Some(|link.sockets|),
                        sockets := link.sockets + [Socket(Thermal, SocketUrl(wsBase, Thermal, robotId), robotId, Connecting)]);
        }
      }
    }

    /** The rest of `connectSockets` once a socket base is known: the video
        block, the thermal block, and the command socket, which is always
        created. When the browser refuses the socket URLs the first
        `new WebSocket` throws: after a video socket that is before the
        thermal block, after an MJPEG video view it is in the thermal block
        or at the command socket. */
    method OpenChannels(wsBase: string, robotId: string, useMjpeg: bool, useMjpegThermal: bool, accepted: bool,
                        now: nat)
      requires SlotsValid() && Down(link)
      requires video.currentUrl == None && thermal.currentUrl == None && !video.pending && !thermal.pending
      modifies this`link, this`status, video, thermal
      ensures SlotsValid()
      ensures link == if accepted then Opened(old(link), wsBase, robotId, useMjpeg, thermal.hasElement && !useMjpegThermal)
                      else Refused(old(link), useMjpeg)
      ensures !video.pending && video.currentUrl == None && !thermal.pending && thermal.currentUrl == None
      ensures video.src == (if useMjpeg then StreamSrc(StreamUrl(ServerBase(serverBase), false, robotId, now)) else old(video.src))
      ensures thermal.src == (if thermal.hasElement && useMjpegThermal && (useMjpeg || accepted)
                              then StreamSrc(StreamUrl(ServerBase(serverBase), true, robotId, now)) else old(thermal.src))
      ensures status == (if useMjpeg then "waiting for robot: " + robotId + " (mjpeg)" else old(status))
    {
      ghost var d := link;
      OpenVideo(wsBase, robotId, useMjpeg, accepted, now);
      if useMjpeg || accepted {
        OpenThermal(wsBase, robotId, useMjpegThermal, accepted, now);
      }
      if accepted {
        link := link.(commandWs := Some(|link.sockets|),
                      sockets := link.sockets + [Socket(Command, SocketUrl(wsBase, Command, robotId), robotId, Connecting)]);
        assert link.sockets == d.sockets + NewSockets(wsBase, robotId, !useMjpeg, thermal.hasElement && !useMjpegThermal);
      }
    }

    /** `connectSockets` after its `disconnectSockets`: zeroed counters, and
        unless there is no socket base, the video block, the thermal block
        and the command socket. */
    method StartSession(robotId: string, useMjpeg: bool, useMjpegThermal: bool, accepted: bool, now: nat)
      requires Valid() && Disconnected()
      modifies this`link, this`status, video, thermal
      ensures Valid() && Covered(link)
      ensures var d := old(link).(counters := Zero);
        var wsBase := WsBase(serverBase);
        link == if wsBase == "" then d
                else if accepted then Opened(d, wsBase, robotId, useMjpeg, thermal.hasElement && !useMjpegThermal)
                else Refused(d, useMjpeg)
      ensures !video.pending && video.currentUrl == None && !thermal.pending && thermal.currentUrl == None
      ensures WsBase(serverBase) == "" ==>
        status == "server url required" && video.src == NoSrc && thermal.src == NoSrc
      ensures WsBase(serverBase) != "" ==>
        && status == (if useMjpeg then "waiting for robot: " + robotId + " (mjpeg)" else "connecting to " + robotId)
        && video.src == (if useMjpeg then StreamSrc(StreamUrl(ServerBase(serverBase), false, robotId, now)) else NoSrc)
        && thermal.src == (if thermal.hasElement && useMjpegThermal && (useMjpeg || accepted)
                           then StreamSrc(StreamUrl(ServerBase(serverBase), true, robotId, now)) else NoSrc)
    {
      ZeroedDown(link);
      link := link.(counters := Zero);
      status := "connecting to " + robotId;
      var wsBase := WsBase(serverBase);
      if wsBase == "" {
        status := "server url required";
        return;
      }
      if accepted {
        OpenedWired(link, wsBase, robotId, useMjpeg, thermal.hasElement && !useMjpegThermal);
      } else {
        RefusedWired(link, useMjpeg);
      }
      OpenChannels(wsBase, robotId, useMjpeg, useMjpegThermal, accepted, now);
    }

    /** `connectSockets(robotId)`: a disconnect, zeroed counters, and unless
        there is no socket base, the sockets the views need (an MJPEG view
        streams from the server instead, and an MJPEG video view starts the
        checker at once). `accepted` says whether the browser's `WebSocket`
        constructor accepts the socket URLs. */
    method Connect(robotId: string, useMjpeg: bool, useMjpegThermal: bool, accepted: bool, now: nat)
      requires Valid()
      modifies this`link, this`status, video, thermal, urls
      ensures Valid() && Covered(link)
      ensures link == Connected(old(link), WsBase(serverBase), robotId, useMjpeg, thermal.hasElement && !useMjpegThermal, accepted)
      ensures urls.blobs == old(urls.blobs)
      ensures urls.revoked == old(urls.revoked) + Released(old(video.currentUrl)) + Released(old(thermal.currentUrl))
      ensures !video.pending && video.currentUrl == None && !thermal.pending && thermal.currentUrl == None
      ensures WsBase(serverBase) == "" ==>
        status == "server url required" && video.src == NoSrc && thermal.src == NoSrc
      ensures WsBase(serverBase) != "" ==>
        && status == (if useMjpeg then "waiting for robot: " + robotId + " (mjpeg)" else "connecting to " + robotId)
        && video.src == (if useMjpeg then StreamSrc(StreamUrl(ServerBase(serverBase), false, robotId, now)) else NoSrc)
        && thermal.src == (if thermal.hasElement && useMjpegThermal && (useMjpeg || accepted)
                           then StreamSrc(StreamUrl(ServerBase(serverBase), true, robotId, now)) else NoSrc)
    {
      Disconnect();
      StartSession(robotId, useMjpeg, useMjpegThermal, accepted, now);
    }

    /** A connecting socket opens. The video socket's `onopen` shows that
        the page waits for the robot and starts the checker; the command
        socket's shows that commands can be sent. */
    method OnSocketOpen(id: nat)
      requires Valid() && id < |link.sockets| && link.sockets[id].state == Connecting
      modifies this`link, this`status
      ensures Valid() && (old(Covered(link)) ==> Covered(link))
      ensures link == AfterOpen(old(link), id)
      ensures var s := old(link.sockets[id]);
        status == match s.channel
          case Video => "waiting for robot: " + s.robotId
          case Thermal => old(status)
          case Command => "command connected: " + s.robotId
    {
      AfterOpenWired(link, id);
      CurrentSocket(link, id);
      var s := link.sockets[id];
      link := link.(sockets := link.sockets[id := s.(state := Open)]);
      match s.channel
      case Video =>
        status := "waiting for robot: " + s.robotId;
        // startRobotOfflineChecker
        link := link.(checkerRunning := true, counters := ForgetLive(link.counters));
      case Thermal =>
      case Command =>
        status := "command connected: " + s.robotId;
    }

    /** A socket that is not yet closed closes. Its `onclose` acts only when
        it is still the current socket of its channel: the video socket's
        stops the checker and shows "disconnected", the command socket's
        shows "command disconnected". */
    method OnSocketClose(id: nat)
      requires Valid() && id < |link.sockets| && link.sockets[id].state != Closed
      modifies this`link, this`status
      ensures Valid() && (old(Covered(link)) ==> Covered(link))
      ensures link == AfterClose(old(link), id)
      ensures status == if Some(id) == old(link.videoWs) then "disconnected"
                        else if Some(id) == old(link.commandWs) then "command disconnected"
                        else old(status)
    {
      AfterCloseWired(link, id);
      var current := Some(id) == link.videoWs;
      var command := Some(id) == link.commandWs;
      link := link.(sockets := link.sockets[id := link.sockets[id].(state := Closed)]);
      if current {
        // stopRobotOfflineChecker
        link := link.(checkerRunning := false, counters := ForgetLive(link.counters));
        status := "disconnected";
      } else if command {
        status := "command disconnected";
      }
    }

    /** The browser starts closing an open socket by itself. The page runs
        no handler; from now on the socket delivers nothing, `sendCommand`
        finds the command socket not open, and `disconnectSockets` does not
        call `close()` on it. */
    method OnClosingStarted(id: nat)
      requires Valid() && id < |link.sockets| && link.sockets[id].state == Open
      modifies this`link
      ensures Valid() && (old(Covered(link)) ==> Covered(link))
      ensures link == ClosingStarted(old(link), id)
      ensures Some(id) == old(link.commandWs) ==> !CommandOpen(link)
    {
      ClosingStartedWired(link, id);
      link := link.(sockets := link.sockets[id := link.sockets[id].(state := Closing)]);
    }

    /** `onclose` as the page installs it: every video socket's handler
        stops the checker and every command socket's sets its status,
        whether or not the socket is still the current one. The page stays
        valid, but the checker may be stopped under an open video socket
        (see `StaleVideoCloseStopsChecker`). */
    method OnSocketCloseAsWritten(id: nat)
      requires Valid() && id < |link.sockets| && link.sockets[id].state != Closed
      modifies this`link, this`status
      ensures Valid()
      ensures link == AfterCloseAsWritten(old(link), id)
      ensures var c := old(link.sockets[id]).channel;
        status == if c == Video then "disconnected" else if c == Command then "command disconnected" else old(status)
    {
      AfterCloseAsWrittenWired(link, id);
      var c := link.sockets[id].channel;
      link := link.(sockets := link.sockets[id := link.sockets[id].(state := Closed)]);
      if c == Video {
        // stopRobotOfflineChecker
        link := link.(checkerRunning := false, counters := ForgetLive(link.counters));
        status := "disconnected";
      } else if c == Command {
        status := "command disconnected";
      }
    }

    /** The counting both image sockets' `onmessage` handlers share: the
        first frame records its time, every later one marks the robot live
        and shows it connected. */
    method CountFrame(robotId: string, now: nat)
      modifies this`link, this`status
      ensures link == old(link).(counters := AfterFrame(old(link).counters, now))
      ensures status == if link.counters.liveFrameCount > 1 then "connected: " + robotId else old(status)
    {
      var count := link.counters.liveFrameCount + 1;
      link := link.(counters := link.counters.(liveFrameCount := count));
      if count == 1 {
        link := link.(counters := link.counters.(firstLiveFrameAt := now));
      } else {
        // markLive
        link := link.(counters := link.counters.(lastLiveDataAt := now));
        status := "connected: " + robotId;
      }
    }

    /** A frame on an open video socket: the counters advance, the frame is
        cached for capture, and it is offered to the video slot. */
    method OnVideoMessage(id: nat, data: Frame, now: nat)
      requires Valid() && id < |link.sockets| && link.sockets[id].state == Open
      requires link.sockets[id].channel == Video
      modifies this`link, this`status, video, urls
      ensures Valid() && (old(Covered(link)) ==> Covered(link))
      ensures Some(id) == link.videoWs
      ensures link == VideoFramed(old(link), data, now)
      ensures status == if link.counters.liveFrameCount > 1 then "connected: " + link.sockets[id].robotId else old(status)
      ensures old(video.pending) ==> unchanged(video, urls)
      ensures !old(video.pending) ==>
        var h := |old(urls.blobs)|;
        && urls.blobs == old(urls.blobs) + [data]
        && video.pending && video.currentUrl == Some(h) && video.src == BlobSrc(h)
        && urls.revoked == old(urls.revoked) + Released(old(video.currentUrl))
    {
      CurrentSocket(link, id);
      FramedWired(link, data, now);
      CountFrame(link.sockets[id].robotId, now);
      link := link.(lastVideoBuffer := Some(data));
      video.Offer(urls, data, thermal);
    }

    /** A frame on an open thermal socket: the counters advance as for a
        video frame, and the frame is offered to the thermal slot. */
    method OnThermalMessage(id: nat, data: Frame, now: nat)
      requires Valid() && id < |link.sockets| && link.sockets[id].state == Open
      requires link.sockets[id].channel == Thermal
      modifies this`link, this`status, thermal, urls
      ensures Valid() && (old(Covered(link)) ==> Covered(link))
      ensures Some(id) == link.thermalWs && thermal.hasElement
      ensures link == ThermalFramed(old(link), now)
      ensures status == if link.counters.liveFrameCount > 1 then "connected: " + link.sockets[id].robotId else old(status)
      ensures old(thermal.pending) ==> unchanged(thermal, urls)
      ensures !old(thermal.pending) ==>
        var h := |old(urls.blobs)|;
        && urls.blobs == old(urls.blobs) + [data]
        && thermal.pending && thermal.currentUrl == Some(h) && thermal.src == BlobSrc(h)
        && urls.revoked == old(urls.revoked) + Released(old(thermal.currentUrl))
    {
      CurrentSocket(link, id);
      FramedWired(link, [], now);
      CountFrame(link.sockets[id].robotId, now);
      thermal.Offer(urls, data, video);
    }

    /** A message on the open command socket goes on top of the log. */
    method OnCommandMessage(id: nat, data: string)
      requires Valid() && id < |link.sockets| && link.sockets[id].state == Open
      requires link.sockets[id].channel == Command
      modifies this`commandLog
      ensures Valid()
      ensures Some(id) == link.commandWs
      ensures commandLog == [FromRobot(data)] + old(commandLog)
    {
      CurrentSocket(link, id);
      commandLog := [FromRobot(data)] + commandLog;
    }

    /** The video element's `load` listener: the pending frame is shown,
        and the first one is noted. */
    method OnVideoLoad()
      requires Valid()
      modifies video, this`link
      ensures Valid() && (old(Covered(link)) ==> Covered(link))
      ensures link == old(link).(firstFrameSeen := true)
      ensures !video.pending && video.currentUrl == old(video.currentUrl) && video.src == old(video.src)
    {
      video.MarkDisplayed(urls);
      link := link.(firstFrameSeen := true);
    }

    /** The thermal element's `load` listener: the pending frame is shown. */
    method OnThermalLoad()
      requires Valid() && thermal.hasElement
      modifies thermal
      ensures Valid()
      ensures !thermal.pending && thermal.currentUrl == old(thermal.currentUrl) && thermal.src == old(thermal.src)
    {
      thermal.MarkDisplayed(urls);
    }

    /** `checkRobotOffline`: when the counters say the robot is offline,
        the status says so and both slots are reset; otherwise nothing
        changes. */
    method CheckRobotOffline(now: nat)
      requires Valid()
      modifies this`status, video, thermal, urls
      ensures Valid()
      ensures urls.blobs == old(urls.blobs)
      ensures Offline(link.counters, now) ==>
        && status == "robot offline"
        && video.currentUrl == None && video.src == NoSrc && !video.pending
        && thermal.currentUrl == None && thermal.src == NoSrc && !thermal.pending
        && urls.revoked == old(urls.revoked) + Released(old(video.currentUrl)) + Released(old(thermal.currentUrl))
      ensures !Offline(link.counters, now) ==>
        status == old(status) && unchanged(video, thermal, urls)
    {
      var c := link.counters;
      var onlyOneStaleFrame := c.liveFrameCount == 1 && c.firstLiveFrameAt != 0 && now - c.firstLiveFrameAt > ROBOT_OFFLINE_MS;
      var wasLiveThenStopped := c.lastLiveDataAt > 0 && now - c.lastLiveDataAt > ROBOT_OFFLINE_MS;
      if onlyOneStaleFrame || wasLiveThenStopped {
        status := "robot offline";
        ResetSlots();
      }
    }

    /** One period of `robotOfflineCheckTimer`: the check runs only while
        the checker is started. */
    method Tick(now: nat)
      requires Valid()
      modifies this`status, video, thermal, urls
      ensures Valid()
      ensures urls.blobs == old(urls.blobs)
      ensures var reset := link.checkerRunning && Offline(link.counters, now);
        && status == (if reset then "robot offline" else old(status))
        && (reset ==>
              && video.currentUrl == None && video.src == NoSrc && !video.pending
              && thermal.currentUrl == None && thermal.src == NoSrc && !thermal.pending)
        && urls.revoked == old(urls.revoked)
             + (if reset then Released(old(video.currentUrl)) + Released(old(thermal.currentUrl)) else multiset{})
        && (!reset ==> unchanged(video, thermal, urls))
    {
      if link.checkerRunning {
        CheckRobotOffline(now);
      }
    }

    /** A capture that ended in the `catch` block with `message`: the
        failure text and a "--" list, and no capture in flight. */
    ghost predicate FailedWith(message: string, useMjpeg: bool)
      reads this
    {
      && !predictionInFlight && capture == Idle
      && predictionStatus == FailureText(message, useMjpeg, link.lastVideoBuffer)
      && predictionList == NoList
    }

    /** `captureAndPredict` up to its first `await`. A second click while a
        capture is in flight changes nothing; without a model URL nothing
        starts; otherwise the flag is set, and the flow either has the
        cached video frame to send at once or must take a frame from the
        video element. */
    method BeginCapture(useMjpeg: bool)
      requires Valid()
      modifies this`predictionInFlight, this`capture, this`predictionStatus
      ensures Valid()
      ensures old(predictionInFlight) ==>
        predictionInFlight && capture == old(capture) && predictionStatus == old(predictionStatus)
      ensures !old(predictionInFlight) && modelApiUrl == "" ==>
        !predictionInFlight && capture == Idle && predictionStatus == "MODEL_API_URL not configured."
      ensures !old(predictionInFlight) && modelApiUrl != "" ==>
        && predictionInFlight
        && capture == (if link.lastVideoBuffer.Some? then AwaitingResponse(link.lastVideoBuffer.value) else AwaitingFrame)
        && predictionStatus == (if link.lastVideoBuffer.Some? then "Sending to model..."
                                else if useMjpeg then "Capturing MJPEG frame (may require CORS)."
                                else "Capturing frame...")
    {
      if predictionInFlight {
        return;
      }
      if modelApiUrl == "" {
        predictionStatus := "MODEL_API_URL not configured.";
        return;
      }
      predictionInFlight := true;
      predictionStatus := "Capturing frame...";
      if useMjpeg && link.lastVideoBuffer.None? {
        predictionStatus := "Capturing MJPEG frame (may require CORS).";
      }
      if link.lastVideoBuffer.Some? {
        capture := AwaitingResponse(link.lastVideoBuffer.value);
        predictionStatus := "Sending to model...";
      } else {
        capture := AwaitingFrame;
      }
    }

    /** The `catch` and `finally` blocks: the failure is shown, the list
        cleared, and the flag released. */
    method Fail(message: string, useMjpeg: bool)
      requires Valid()
      modifies this`predictionInFlight, this`capture, this`predictionStatus, this`predictionList
      ensures Valid() && FailedWith(message, useMjpeg)
    {
      predictionStatus := FailureText(message, useMjpeg, link.lastVideoBuffer);
      predictionList := NoList;
      predictionInFlight := false;
      capture := Idle;
    }

    /** `blobFromImageElement(videoEl)` settles: with a frame the flow goes
        on to send it; with an error it fails. */
    method OnFrameCaptured(outcome: FrameOutcome, useMjpeg: bool)
      requires Valid() && capture == AwaitingFrame
      modifies this`predictionInFlight, this`capture, this`predictionStatus, this`predictionList
      ensures Valid()
      ensures outcome.Captured? ==>
        && predictionInFlight && capture == AwaitingResponse(outcome.blob)
        && predictionStatus == "Sending to model..." && predictionList == old(predictionList)
      ensures outcome.CaptureFailed? ==> FailedWith(outcome.message, useMjpeg)
    {
      match outcome
      case Captured(blob) =>
        capture := AwaitingResponse(blob);
        predictionStatus := "Sending to model...";
      case CaptureFailed(message) =>
        Fail(message, useMjpeg);
    }

    /** The `response.ok` path with the body parsed into `payload`: the
        extracted label and confidence are shown first; a `null` payload
        then throws when `all_confidences` is read, any other shows the
        ranked list. */
    method ShowPrediction(payload: JsValue, useMjpeg: bool)
      requires Valid() && capture.AwaitingResponse?
      modifies this`predictionInFlight, this`capture, this`predictionStatus, this`predictionList
      modifies this`predictionLabel, this`predictionConfidence
      ensures Valid() && !predictionInFlight && capture == Idle
      ensures var p := ExtractPrediction(payload);
        predictionLabel == p.labelValue && predictionConfidence == ConfidencePercent(p.confidence)
      ensures payload == JNull ==> FailedWith(NULL_PAYLOAD_MESSAGE, useMjpeg)
      ensures payload != JNull ==>
        && predictionList == RenderAllConfidences(Property(payload, "all_confidences"))
        && predictionStatus == "Prediction complete."
    {
      ShowExtracted(payload);
      if payload == JNull {
        Fail(NULL_PAYLOAD_MESSAGE, useMjpeg);
        return;
      }
      ShowRanked(payload);
      predictionInFlight := false;
      capture := Idle;
    }

    /** The first two lines of the success path: the label and the
        confidence `extractPrediction` finds. */
    method ShowExtracted(payload: JsValue)
      modifies this`predictionLabel, this`predictionConfidence
      ensures var p := ExtractPrediction(payload);
        predictionLabel == p.labelValue && predictionConfidence == ConfidencePercent(p.confidence)
    {
      var p := ExtractPrediction(payload);
      predictionLabel := p.labelValue;
      predictionConfidence := ConfidencePercent(p.confidence);
    }

    /** The end of the success path: every finite score, ranked, and the
        completion message. */
    method ShowRanked(payload: JsValue)
      requires payload != JNull
      modifies this`predictionList, this`predictionStatus
      ensures predictionList == RenderAllConfidences(Property(payload, "all_confidences"))
      ensures predictionStatus == "Prediction complete."
    {
      predictionList := RenderAllConfidences(Property(payload, "all_confidences"));
      predictionStatus := "Prediction complete.";
    }

    /** The model's reply settles the flow, which always ends with the flag
        released. A rejected request or a non-OK response fails; an OK one
        goes on as `ShowPrediction` with the body parsed (a body that is
        not JSON becomes `{raw: body}`). */
    method OnModelReply(reply: ModelReply, parsed: Option<JsValue>, useMjpeg: bool)
      requires Valid() && capture.AwaitingResponse?
      modifies this`predictionInFlight, this`capture, this`predictionStatus, this`predictionList
      modifies this`predictionLabel, this`predictionConfidence
      ensures Valid() && !predictionInFlight && capture == Idle
      ensures !reply.Reply? || !reply.ok ==>
        && predictionLabel == old(predictionLabel) && predictionConfidence == old(predictionConfidence)
      ensures reply.Rejected? ==> FailedWith(reply.message, useMjpeg)
      ensures reply.Reply? && !reply.ok ==> FailedWith(ModelError(reply.status, reply.body), useMjpeg)
      ensures reply.Reply? && reply.ok ==>
        var payload := ParsedPayload(reply.body, parsed);
        var p := ExtractPrediction(payload);
        && predictionLabel == p.labelValue && predictionConfidence == ConfidencePercent(p.confidence)
        && (payload == JNull ==> FailedWith(NULL_PAYLOAD_MESSAGE, useMjpeg))
        && (payload != JNull ==>
              && predictionList == RenderAllConfidences(Property(payload, "all_confidences"))
              && predictionStatus == "Prediction complete.")
    {
      match reply
      case Rejected(message) =>
        Fail(message, useMjpeg);
      case Reply(ok, code, body) =>
        if !ok {
          Fail(ModelError(code, body), useMjpeg);
        } else {
          ShowPrediction(ParsedPayload(body, parsed), useMjpeg);
        }
    }

    /** `sendCommand`: unless the command socket is open the status says so
        and nothing is sent; an input that is blank after trimming is not
        sent; otherwise the trimmed text goes out on the command socket, on
        top of the log, and the input is cleared. */
    method SendCommand(input: string, now: nat) returns (remaining: string)
      requires Valid()
      modifies this`status, this`sent, this`commandLog
      ensures Valid()
      ensures !CommandOpen(link) ==>
        && status == "command socket not connected"
        && sent == old(sent) && commandLog == old(commandLog) && remaining == input
      ensures CommandOpen(link) && Trim(input) == "" ==>
        && status == old(status) && sent == old(sent) && commandLog == old(commandLog) && remaining == input
      ensures CommandOpen(link) && Trim(input) != "" ==>
        && sent == old(sent) + [(link.commandWs.value, TextCommand(CLIENT_ID, Trim(input), now))]
        && commandLog == [SentText(Trim(input))] + old(commandLog)
        && status == old(status) && remaining == ""
      ensures |sent| > |old(sent)| <==> CommandOpen(link) && !AllSpace(input)
    {
      remaining := input;
      if !CommandOpen(link) {
        status := "command socket not connected";
        return;
      }
      var text := Trim(input);
      if text == "" {
        return;
      }
      sent := sent + [(link.commandWs.value, TextCommand(CLIENT_ID, text, now))];
      commandLog := [SentText(text)] + commandLog;
      remaining := "";
    }

    /** `sendDriveCommand`: nothing happens unless the command socket is
        open; then the command with the dial's speed goes out and on top of
        the log. */
    method SendDriveCommand(command: string, speed: real, now: nat)
      requires Valid()
      modifies this`sent, this`commandLog
      ensures Valid()
      ensures !CommandOpen(link) ==> sent == old(sent) && commandLog == old(commandLog)
      ensures CommandOpen(link) ==>
        && sent == old(sent) + [(link.commandWs.value, DriveCommand(CLIENT_ID, command, speed, now))]
        && commandLog == [SentDrive(command, speed)] + old(commandLog)
    {
      if !CommandOpen(link) {
        return;
      }
      sent := sent + [(link.commandWs.value, DriveCommand(CLIENT_ID, command, speed, now))];
      commandLog := [SentDrive(command, speed)] + commandLog;
    }
  }
}
