/** The page's liveness bookkeeping: how the image sockets' messages move
    the three counters, and the offline test the periodic checker applies
    to them. Times are milliseconds since the epoch, as `Date.now()`
    returns them. */
module Liveness {

  /** No frame for this long means the robot is offline. */
  const ROBOT_OFFLINE_MS: nat := 10000

  /** `liveFrameCount`, `firstLiveFrameAt` and `lastLiveDataAt`; zero stands
      for "not yet". The video and thermal sockets share them. */
  datatype Counters = Counters(liveFrameCount: nat, firstLiveFrameAt: nat, lastLiveDataAt: nat)

  /** The counters as `connectSockets` leaves them. */
  const Zero := Counters(0, 0, 0)

  /** One image message at time `now`: the first one only records when it
      came; every later one marks the robot live. */
  function AfterFrame(c: Counters, now: nat): (r: Counters)
    ensures r.liveFrameCount == c.liveFrameCount + 1
    ensures c.liveFrameCount >= 1 ==> r.firstLiveFrameAt == c.firstLiveFrameAt && r.lastLiveDataAt == now
    ensures Coherent(c) ==> Coherent(r)
  {
    var count := c.liveFrameCount + 1;
    if count == 1 then Counters(count, now, c.lastLiveDataAt)
    else Counters(count, c.firstLiveFrameAt, now)
  }

  /** The messages at times `ts`, oldest first. */
  function AfterFrames(c: Counters, ts: seq<nat>): Counters
  {
    if ts == [] then c else AfterFrame(AfterFrames(c, ts[..|ts| - 1]), ts[|ts| - 1])
  }

  /** `start/stopRobotOfflineChecker` forget the last live time. */
  function ForgetLive(c: Counters): (d: Counters)
    ensures d.lastLiveDataAt == 0
    ensures d.liveFrameCount == c.liveFrameCount && d.firstLiveFrameAt == c.firstLiveFrameAt
  {
    c.(lastLiveDataAt := 0)
  }

  /** `checkRobotOffline`'s test: a single frame that was never followed by
      another within the limit, or live data that stopped for longer than
      the limit. A zero `firstLiveFrameAt` is falsy and never counts. */
  predicate Offline(c: Counters, now: nat): (offline: bool)
    ensures Coherent(c) && c.liveFrameCount == 0 ==> !offline
  {
    || (c.liveFrameCount == 1 && c.firstLiveFrameAt != 0 && now - c.firstLiveFrameAt > ROBOT_OFFLINE_MS)
    || (c.lastLiveDataAt > 0 && now - c.lastLiveDataAt > ROBOT_OFFLINE_MS)
  }

  /** What the page's updates keep true of the counters: the last live time
      is only set from the second message on, and the first-frame time only
      by a message. */
  predicate Coherent(c: Counters)
  {
    && (c.liveFrameCount <= 1 ==> c.lastLiveDataAt == 0)
    && (c.liveFrameCount == 0 ==> c.firstLiveFrameAt == 0)
  }

  /** Every update of the counters keeps them coherent. */
  lemma CoherentKept(c: Counters, now: nat)
    requires Coherent(c)
    ensures Coherent(AfterFrame(c, now)) && Coherent(ForgetLive(c)) && Coherent(Zero)
  {
  }

  /** Messages at times `ts` after a connect: the count is the number of
      messages, the first-frame time is the first message's, and the last
      live time is the latest message's, or zero while there was at most
      one. */
  lemma {:induction false} FramesFromZero(ts: seq<nat>)
    ensures var c := AfterFrames(Zero, ts);
      && c.liveFrameCount == |ts|
      && c.firstLiveFrameAt == (if |ts| == 0 then 0 else ts[0])
      && c.lastLiveDataAt == (if |ts| <= 1 then 0 else ts[|ts| - 1])
  {
    if ts != [] {
      var prefix := ts[..|ts| - 1];
      FramesFromZero(prefix);
      if |ts| > 1 {
        assert prefix[0] == ts[0];
      }
    }
  }

  /** After a connect and messages at times `ts`, the checker reports the
      robot offline exactly when one message came and nothing followed it
      for longer than the limit, or the latest of two or more messages is
      older than the limit. No message at all never counts as offline. */
  lemma OfflineFromZero(ts: seq<nat>, now: nat)
    ensures Offline(AfterFrames(Zero, ts), now) <==>
      || (|ts| == 1 && ts[0] != 0 && now - ts[0] > ROBOT_OFFLINE_MS)
      || (|ts| >= 2 && ts[|ts| - 1] > 0 && now - ts[|ts| - 1] > ROBOT_OFFLINE_MS)
  {
    FramesFromZero(ts);
  }

  /** A message always makes the robot look live at the moment it arrives. */
  lemma LiveOnFrame(c: Counters, now: nat)
    requires Coherent(c)
    ensures !Offline(AfterFrame(c, now), now)
  {
  }

  /** Once offline, the robot stays offline as time passes without messages. */
  lemma OfflineStays(c: Counters, now: nat, later: nat)
    requires Offline(c, now) && now <= later
    ensures Offline(c, later)
  {
  }
}
