/** The connection state of the page as a value: the sockets it created,
    its three socket references, the checker timer, the liveness counters
    and the cached video frame; with what each socket event and each
    connect or disconnect does to it. */
module Links {
  import opened Options
  import opened Endpoints
  import opened Liveness
  import opened FrameSlot

  /** `WebSocket.readyState`: CONNECTING (0), OPEN (1), CLOSING (2), CLOSED (3). */
  datatype ReadyState = Connecting | Open | Closing | Closed

  /** `readyState <= 1`: the states in which the page calls `close()`, and
      the only ones in which a socket can still open or deliver a message. */
  predicate Closable(s: ReadyState)
  {
    s == Connecting || s == Open
  }

  /** A socket the page created, with the robot id its handlers close over. */
  datatype Socket = Socket(channel: Channel, url: string, robotId: string, state: ReadyState)

  /** `ws.close()` on a connecting or open socket starts the closing
      handshake; on any other it does nothing. */
  function Close(s: Socket): (r: Socket)
    ensures !Closable(r.state)
    ensures r.channel == s.channel && r.url == s.url && r.robotId == s.robotId
    ensures !Closable(s.state) ==> r == s
  {
    if Closable(s.state) then s.(state := Closing) else s
  }

  /** The sockets after `close()` was applied, in turn, to each reference in
      `refs` that is not null. */
  function CloseRefs(sockets: seq<Socket>, refs: seq<Option<nat>>): (r: seq<Socket>)
    ensures |r| == |sockets|
  {
    if refs == [] then sockets
    else
      var rest := CloseRefs(sockets, refs[..|refs| - 1]);
      var last := refs[|refs| - 1];
      if last.Some? && last.value < |rest| then rest[last.value := Close(rest[last.value])] else rest
  }

  /** Closing by references closes exactly the referenced sockets. */
  lemma {:induction false} CloseRefsSpec(sockets: seq<Socket>, refs: seq<Option<nat>>)
    ensures forall id :: 0 <= id < |sockets| ==>
      CloseRefs(sockets, refs)[id] == if Some(id) in refs then Close(sockets[id]) else sockets[id]
  {
    if refs != [] {
      CloseRefsSpec(sockets, refs[..|refs| - 1]);
      assert refs == refs[..|refs| - 1] + [refs[|refs| - 1]];
    }
  }

  /** The `forEach` loop of `disconnectSockets`. */
  method CloseEach(sockets: seq<Socket>, refs: seq<Option<nat>>) returns (closed: seq<Socket>)
    ensures closed == CloseRefs(sockets, refs)
  {
    closed := sockets;
    var i := 0;
    while i < |refs|
      invariant 0 <= i <= |refs|
      invariant closed == CloseRefs(sockets, refs[..i])
    {
      var ws := refs[i];
      assert refs[..i + 1][..i] == refs[..i];
      if ws.Some? && ws.value < |closed| && Closable(closed[ws.value].state) {
        closed := closed[ws.value := Close(closed[ws.value])];
      }
      i := i + 1;
    }
    assert refs[..i] == refs;
  }

  /** The socket of channel `c` that `connectSockets` opens, if `wanted`. */
  function SocketIf(wanted: bool, c: Channel, wsBase: string, robotId: string): (r: seq<Socket>)
    ensures |r| == if wanted then 1 else 0
    ensures forall i :: 0 <= i < |r| ==> r[i] == Socket(c, SocketUrl(wsBase, c, robotId), robotId, Connecting)
  {
    if wanted then [Socket(c, SocketUrl(wsBase, c, robotId), robotId, Connecting)] else []
  }

  /** The sockets `connectSockets` opens, in the order it opens them: video
      unless the video view streams MJPEG, thermal when the page has a
      thermal view that does not stream MJPEG, and always command, last.
      Each is connecting, to its channel's path for the robot. */
  function NewSockets(wsBase: string, robotId: string, videoSocket: bool, thermalSocket: bool): (r: seq<Socket>)
    ensures |r| == (if videoSocket then 1 else 0) + (if thermalSocket then 1 else 0) + 1
    ensures forall i :: 0 <= i < |r| ==>
      r[i] == Socket(r[i].channel, SocketUrl(wsBase, r[i].channel, robotId), robotId, Connecting)
    ensures videoSocket ==> r[0].channel == Video
    ensures thermalSocket ==> r[|r| - 2].channel == Thermal
    ensures r[|r| - 1].channel == Command
  {
    var v := SocketIf(videoSocket, Video, wsBase, robotId);
    var t := SocketIf(thermalSocket, Thermal, wsBase, robotId);
    var c := SocketIf(true, Command, wsBase, robotId);
    assert forall i :: 0 <= i < |v + t + c| ==>
      (v + t + c)[i] == if i < |v| then v[i] else if i < |v| + |t| then t[i - |v|] else c[i - |v| - |t|];
    v + t + c
  }

  /** The connection: `videoWs`, `thermalWs`, `commandWs` are indices into
      `sockets`; `checkerRunning` says whether `robotOfflineCheckTimer` is set. */
  datatype LinkView = LinkView(
    sockets: seq<Socket>, videoWs: Option<nat>, thermalWs: Option<nat>, commandWs: Option<nat>,
    firstFrameSeen: bool, checkerRunning: bool, counters: Counters, lastVideoBuffer: Option<Frame>)

  /** `ref` is null or names a socket of channel `c`. */
  predicate RefTo(sockets: seq<Socket>, ref: Option<nat>, c: Channel)
  {
    ref.Some? ==> ref.value < |sockets| && sockets[ref.value].channel == c
  }

  /** `id` is one of the three current references. */
  predicate IsRef(l: LinkView, id: nat)
  {
    Some(id) == l.videoWs || Some(id) == l.thermalWs || Some(id) == l.commandWs
  }

  /** Each reference names a socket of its own channel, every socket that
      can still open or deliver a message is a current one, and the
      counters are coherent. */
  ghost predicate Wired(l: LinkView)
  {
    && RefTo(l.sockets, l.videoWs, Video)
    && RefTo(l.sockets, l.thermalWs, Thermal)
    && RefTo(l.sockets, l.commandWs, Command)
    && (forall id: nat :: id < |l.sockets| && Closable(l.sockets[id].state) ==> IsRef(l, id))
    && Coherent(l.counters)
  }

  predicate VideoOpen(l: LinkView)
  {
    l.videoWs.Some? && l.videoWs.value < |l.sockets| && l.sockets[l.videoWs.value].state == Open
  }

  /** `commandWs && commandWs.readyState === WebSocket.OPEN`. */
  predicate CommandOpen(l: LinkView)
  {
    l.commandWs.Some? && l.commandWs.value < |l.sockets| && l.sockets[l.commandWs.value].state == Open
  }

  /** While the video socket is open the offline checker runs. */
  predicate Covered(l: LinkView)
  {
    VideoOpen(l) ==> l.checkerRunning
  }

  /** The connection after `disconnectSockets`: checker stopped (which also
      forgets the last live time), referenced sockets closed, references
      and cached frame dropped. The frame counters are kept. */
  function Dropped(l: LinkView): (d: LinkView)
    ensures Down(d)
    ensures |d.sockets| == |l.sockets|
    ensures d.counters.liveFrameCount == l.counters.liveFrameCount
    ensures d.counters.firstLiveFrameAt == l.counters.firstLiveFrameAt
  {
    LinkView(CloseRefs(l.sockets, [l.videoWs, l.thermalWs, l.commandWs]),
             None, None, None, false, false, ForgetLive(l.counters), None)
  }

  /** After a disconnect no socket can open or deliver a message any more,
      and nothing else about the sockets changed. */
  lemma DroppedQuiet(l: LinkView)
    requires Wired(l)
    ensures var d := Dropped(l);
      && Wired(d) && Covered(d) && |d.sockets| == |l.sockets|
      && forall id :: 0 <= id < |d.sockets| ==>
           !Closable(d.sockets[id].state) && d.sockets[id].channel == l.sockets[id].channel
  {
    var refs := [l.videoWs, l.thermalWs, l.commandWs];
    CloseRefsSpec(l.sockets, refs);
    forall id | 0 <= id < |l.sockets| && Closable(l.sockets[id].state)
      ensures Some(id) in refs
    {
      assert IsRef(l, id);
    }
  }

  /** Disconnecting twice is disconnecting once. */
  lemma DroppedIdempotent(l: LinkView)
    ensures Dropped(Dropped(l)) == Dropped(l)
  {
    DroppedDown(l);
    DroppedDown(Dropped(l));
  }

  /** What `disconnectSockets` leaves: no reference, no checker, no last
      live time and no cached frame. */
  predicate Down(l: LinkView)
  {
    && l.videoWs == None && l.thermalWs == None && l.commandWs == None
    && !l.firstFrameSeen && !l.checkerRunning
    && l.counters.lastLiveDataAt == 0 && l.lastVideoBuffer == None
  }

  /** A disconnect always leaves the connection down, and on a connection
      already down it changes nothing. */
  lemma DroppedDown(l: LinkView)
    ensures Down(Dropped(l))
    ensures Down(l) ==> Dropped(l) == l
  {
    if Down(l) {
      CloseRefsSpec(l.sockets, [None, None, None]);
      assert CloseRefs(l.sockets, [None, None, None]) == l.sockets;
    }
  }

  /** Zeroing the counters of a connection that is down keeps it wired
      and down. */
  lemma ZeroedDown(l: LinkView)
    requires Wired(l) && Down(l)
    ensures var z := l.(counters := Zero);
      Wired(z) && Covered(z) && Down(z)
  {
    var z := l.(counters := Zero);
    assert forall id: nat :: id < |z.sockets| ==> z.sockets[id] == l.sockets[id];
  }

  /** The connection after `connectSockets`: a disconnect, zeroed counters,
      and, when there is a socket base, the new sockets with the references
      to them; an MJPEG video view starts the checker instead of opening a
      video socket. `accepted` says whether the browser's `WebSocket`
      constructor accepts the socket URLs; when it does not, the first
      `new WebSocket` throws and the rest of the function does not run. */
  function Connected(l: LinkView, wsBase: string, robotId: string, useMjpeg: bool, thermalSocket: bool,
                     accepted: bool): (c: LinkView)
    ensures c.counters == Zero && c.lastVideoBuffer == None && !c.firstFrameSeen
    ensures |c.sockets| >= |l.sockets|
  {
    var d := Dropped(l).(counters := Zero);
    if wsBase == "" then d
    else if accepted then Opened(d, wsBase, robotId, useMjpeg, thermalSocket)
    else Refused(d, useMjpeg)
  }

  /** The part of `connectSockets` after the socket base check: the new
      sockets appended, the references set to them, and the checker
      started for an MJPEG video view. */
  function Opened(d: LinkView, wsBase: string, robotId: string, useMjpeg: bool, thermalSocket: bool): LinkView
  {
    var first := |d.sockets|;
    var added := NewSockets(wsBase, robotId, !useMjpeg, thermalSocket);
    d.(sockets := d.sockets + added,
       videoWs := if useMjpeg then None else Some(first),
       thermalWs := if thermalSocket then Some(if useMjpeg then first else first + 1) else None,
       commandWs := Some(first + |added| - 1),
       checkerRunning := useMjpeg,
       counters := if useMjpeg then ForgetLive(d.counters) else d.counters)
  }

  /** What runs before the first `new WebSocket` throws: only an MJPEG
      video view's checker start. */
  function Refused(d: LinkView, useMjpeg: bool): LinkView
  {
    d.(checkerRunning := useMjpeg, counters := if useMjpeg then ForgetLive(d.counters) else d.counters)
  }

  /** A connect leaves every earlier socket closed and in its place and
      zeroes the counters. With a socket base an MJPEG video view starts
      the checker. When the sockets are created, a command socket is
      referenced and a video socket exists exactly when the checker is not
      started at once; otherwise no socket is created and no reference
      set. */
  lemma ConnectedKeepsOld(l: LinkView, wsBase: string, robotId: string, useMjpeg: bool, thermalSocket: bool,
                          accepted: bool)
    requires Wired(l)
    ensures var c := Connected(l, wsBase, robotId, useMjpeg, thermalSocket, accepted);
      && c.counters == Zero && |c.sockets| >= |l.sockets|
      && (forall id :: 0 <= id < |l.sockets| ==>
            !Closable(c.sockets[id].state) && c.sockets[id].channel == l.sockets[id].channel)
      && (wsBase != "" ==> c.checkerRunning == useMjpeg)
      && (wsBase != "" && accepted ==> c.commandWs.Some? && (c.videoWs.Some? <==> !c.checkerRunning))
      && (wsBase == "" || !accepted ==>
            |c.sockets| == |l.sockets| && c.videoWs == None && c.thermalWs == None && c.commandWs == None)
  {
    DroppedQuiet(l);
    var d := Dropped(l).(counters := Zero);
    if wsBase != "" && accepted {
      var c := Connected(l, wsBase, robotId, useMjpeg, thermalSocket, accepted);
      var added := NewSockets(wsBase, robotId, !useMjpeg, thermalSocket);
      assert c.sockets == d.sockets + added;
      assert forall id :: 0 <= id < |d.sockets| ==> c.sockets[id] == d.sockets[id];
    }
  }

  /** Opening new sockets on a connection that is down keeps it wired and
      covered. */
  lemma OpenedWired(d: LinkView, wsBase: string, robotId: string, useMjpeg: bool, thermalSocket: bool)
    requires Wired(d) && Down(d)
    ensures var c := Opened(d, wsBase, robotId, useMjpeg, thermalSocket);
      Wired(c) && Covered(c)
  {
    var c := Opened(d, wsBase, robotId, useMjpeg, thermalSocket);
    var added := NewSockets(wsBase, robotId, !useMjpeg, thermalSocket);
    assert c.sockets == d.sockets + added;
    forall id: nat | id < |c.sockets| && Closable(c.sockets[id].state)
      ensures IsRef(c, id)
    {
      if id >= |d.sockets| {
        assert c.sockets[id] == added[id - |d.sockets|];
      }
    }
  }

  /** A refused connect keeps a connection that is down wired and covered. */
  lemma RefusedWired(d: LinkView, useMjpeg: bool)
    requires Wired(d) && Down(d)
    ensures Wired(Refused(d, useMjpeg)) && Covered(Refused(d, useMjpeg))
  {
    var r := Refused(d, useMjpeg);
    assert forall id: nat :: id < |r.sockets| ==> r.sockets[id] == d.sockets[id];
  }

  /** A connect keeps the connection wired and the checker covering an
      open video socket. */
  lemma ConnectedWired(l: LinkView, wsBase: string, robotId: string, useMjpeg: bool, thermalSocket: bool,
                       accepted: bool)
    requires Wired(l)
    ensures var c := Connected(l, wsBase, robotId, useMjpeg, thermalSocket, accepted);
      Wired(c) && Covered(c)
  {
    DroppedQuiet(l);
    DroppedDown(l);
    var d := Dropped(l).(counters := Zero);
    ZeroedDown(Dropped(l));
    if wsBase != "" {
      if accepted {
        OpenedWired(d, wsBase, robotId, useMjpeg, thermalSocket);
      } else {
        RefusedWired(d, useMjpeg);
      }
    }
  }

  /** Only a current socket can open or deliver a message, and it is the
      reference of its own channel. */
  lemma CurrentSocket(l: LinkView, id: nat)
    requires Wired(l) && id < |l.sockets| && Closable(l.sockets[id].state)
    ensures l.sockets[id].channel == Video ==> Some(id) == l.videoWs
    ensures l.sockets[id].channel == Thermal ==> Some(id) == l.thermalWs
    ensures l.sockets[id].channel == Command ==> Some(id) == l.commandWs
  {
    assert IsRef(l, id);
  }

  /** A connecting socket opens. The video socket's `onopen` starts the
      checker, which forgets the last live time. */
  function AfterOpen(l: LinkView, id: nat): (a: LinkView)
    requires id < |l.sockets|
    ensures |a.sockets| == |l.sockets| && a.sockets[id].state == Open
    ensures forall j :: 0 <= j < |l.sockets| && j != id ==> a.sockets[j] == l.sockets[j]
    ensures a.videoWs == l.videoWs && a.thermalWs == l.thermalWs && a.commandWs == l.commandWs
    ensures a.checkerRunning == (l.checkerRunning || l.sockets[id].channel == Video)
  {
    var s := l.sockets[id];
    var l1 := l.(sockets := l.sockets[id := s.(state := Open)]);
    if s.channel == Video then l1.(checkerRunning := true, counters := ForgetLive(l.counters)) else l1
  }

  /** Only a current socket can open; the connection stays wired, and the
      checker keeps covering an open video socket. */
  lemma AfterOpenWired(l: LinkView, id: nat)
    requires Wired(l) && id < |l.sockets| && l.sockets[id].state == Connecting
    ensures IsRef(l, id)
    ensures Wired(AfterOpen(l, id))
    ensures Covered(l) ==> Covered(AfterOpen(l, id))
  {
    assert Closable(l.sockets[id].state);
    var a := AfterOpen(l, id);
    forall j: nat | j < |a.sockets|
      ensures a.sockets[j].channel == l.sockets[j].channel
      ensures Closable(a.sockets[j].state) ==> Closable(l.sockets[j].state)
    {
    }
  }

  /** A socket closes, and its `onclose` runs only if it is still the
      current socket of its channel: the current video socket stops the
      checker. A socket a disconnect already dropped does nothing else. */
  function AfterClose(l: LinkView, id: nat): (a: LinkView)
    requires id < |l.sockets|
    ensures |a.sockets| == |l.sockets| && a.sockets[id].state == Closed
    ensures forall j :: 0 <= j < |l.sockets| && j != id ==> a.sockets[j] == l.sockets[j]
    ensures a.videoWs == l.videoWs && a.thermalWs == l.thermalWs && a.commandWs == l.commandWs
    ensures a.checkerRunning == (l.checkerRunning && Some(id) != l.videoWs)
  {
    var l1 := l.(sockets := l.sockets[id := l.sockets[id].(state := Closed)]);
    if Some(id) == l.videoWs then l1.(checkerRunning := false, counters := ForgetLive(l.counters)) else l1
  }

  /** `videoWs.onclose` as the page installs it: every video socket's close
      stops the checker, whether or not it is still the current one. */
  function AfterCloseAsWritten(l: LinkView, id: nat): (a: LinkView)
    requires id < |l.sockets|
    ensures |a.sockets| == |l.sockets| && a.sockets[id].state == Closed
    ensures forall j :: 0 <= j < |l.sockets| && j != id ==> a.sockets[j] == l.sockets[j]
    ensures a.videoWs == l.videoWs && a.thermalWs == l.thermalWs && a.commandWs == l.commandWs
    ensures a.checkerRunning == (l.checkerRunning && l.sockets[id].channel != Video)
  {
    var l1 := l.(sockets := l.sockets[id := l.sockets[id].(state := Closed)]);
    if l.sockets[id].channel == Video then l1.(checkerRunning := false, counters := ForgetLive(l.counters)) else l1
  }

  /** With the close handler guarded, a close keeps the connection wired
      and the checker running for as long as the video socket is open. */
  lemma AfterCloseWired(l: LinkView, id: nat)
    requires Wired(l) && id < |l.sockets|
    ensures Wired(AfterClose(l, id))
    ensures Covered(l) ==> Covered(AfterClose(l, id))
  {
  }

  /** The unguarded handler keeps the connection wired but not covered. */
  lemma AfterCloseAsWrittenWired(l: LinkView, id: nat)
    requires Wired(l) && id < |l.sockets|
    ensures Wired(AfterCloseAsWritten(l, id))
  {
  }

  /** The browser starts the closing handshake on its own (the server sent
      a close frame, or the connection failed): an open socket becomes
      CLOSING before its close event fires. No handler runs. */
  function ClosingStarted(l: LinkView, id: nat): LinkView
    requires id < |l.sockets|
  {
    l.(sockets := l.sockets[id := l.sockets[id].(state := Closing)])
  }

  /** Once the browser starts closing a socket it delivers nothing more and
      `close()` skips it; a command socket in that state no longer counts
      as open. The connection stays wired, and covered if it was. */
  lemma ClosingStartedWired(l: LinkView, id: nat)
    requires Wired(l) && id < |l.sockets| && l.sockets[id].state == Open
    ensures var c := ClosingStarted(l, id);
      && !Closable(c.sockets[id].state)
      && (Some(id) == l.commandWs ==> !CommandOpen(c))
      && (Some(id) == l.videoWs ==> !VideoOpen(c))
      && Wired(c)
      && (Covered(l) ==> Covered(c))
  {
    var c := ClosingStarted(l, id);
    forall j: nat | j < |c.sockets|
      ensures c.sockets[j].channel == l.sockets[j].channel
      ensures Closable(c.sockets[j].state) ==> Closable(l.sockets[j].state)
    {
    }
  }

  /** A message on the video socket: the counters advance and the frame is
      cached for capture. */
  function VideoFramed(l: LinkView, data: Frame, now: nat): LinkView
  {
    l.(counters := AfterFrame(l.counters, now), lastVideoBuffer := Some(data))
  }

  /** A message on the thermal socket: the counters advance. */
  function ThermalFramed(l: LinkView, now: nat): LinkView
  {
    l.(counters := AfterFrame(l.counters, now))
  }

  /** Messages keep the connection wired and covered. */
  lemma FramedWired(l: LinkView, data: Frame, now: nat)
    requires Wired(l)
    ensures Wired(VideoFramed(l, data, now)) && Wired(ThermalFramed(l, now))
    ensures Covered(l) ==> Covered(VideoFramed(l, data, now)) && Covered(ThermalFramed(l, now))
  {
    CoherentKept(l.counters, now);
  }

  /** The page before its first connect. */
  const Initial := LinkView([], None, None, None, false, false, Zero, None)

  /** Connect with a video socket, let it open, reconnect, let the new video
      socket open, and only then let the first socket's close arrive: the
      video socket is open and the checker is off, so the robot going
      offline is never reported. */
  lemma StaleVideoCloseStopsChecker()
    ensures var l1 := Connected(Initial, "ws://h", "r", false, false, true);
      var l2 := AfterOpen(l1, 0);
      var l3 := Connected(l2, "ws://h", "r", false, false, true);
      var l4 := AfterOpen(l3, 2);
      var l5 := AfterCloseAsWritten(l4, 0);
      && Wired(l4) && Covered(l4)
      && VideoOpen(l5) && !l5.checkerRunning
  {
    var l1 := Connected(Initial, "ws://h", "r", false, false, true);
    ConnectedWired(Initial, "ws://h", "r", false, false, true);
    ConnectedKeepsOld(Initial, "ws://h", "r", false, false, true);
    assert l1.videoWs == Some(0) && l1.sockets[0].state == Connecting;
    var l2 := AfterOpen(l1, 0);
    AfterOpenWired(l1, 0);
    var l3 := Connected(l2, "ws://h", "r", false, false, true);
    ConnectedWired(l2, "ws://h", "r", false, false, true);
    ConnectedKeepsOld(l2, "ws://h", "r", false, false, true);
    assert l3.videoWs == Some(2) && |l3.sockets| == 4 && l3.sockets[2].state == Connecting;
    assert l3.sockets[0].channel == Video;
    var l4 := AfterOpen(l3, 2);
    AfterOpenWired(l3, 2);
    assert l4.sockets[0].channel == Video;
  }
}
