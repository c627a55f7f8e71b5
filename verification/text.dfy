/** Optional values: `None` stands for JavaScript's `undefined` or `null`
    reference, depending on where it is used. */
module Options {
  datatype Option<+T> = None | Some(value: T)
}

/** String helpers the page relies on: `String(n)` for a non-negative
    integer and `String.prototype.trim`. */
module Text {

  predicate IsDigit(c: char) { '0' <= c <= '9' }

  predicate AllDigits(s: string) { forall i :: 0 <= i < |s| ==> IsDigit(s[i]) }

  function DigitChar(d: nat): (c: char)
    requires d < 10
    ensures IsDigit(c)
  {
    (d + '0' as int) as char
  }

  function DigitValue(c: char): nat
    requires IsDigit(c)
  {
    c as int - '0' as int
  }

  /** `String(n)`: the decimal digits of `n`, without leading zeros. */
  function NatToString(n: nat): (s: string)
    ensures |s| >= 1 && AllDigits(s)
    ensures s[0] == '0' <==> n == 0
    decreases n
  {
    if n < 10 then [DigitChar(n)] else NatToString(n / 10) + [DigitChar(n % 10)]
  }

  /** The number a string of decimal digits denotes. */
  function DigitsValue(s: string): nat
    requires AllDigits(s)
  {
    if s == [] then 0 else DigitsValue(s[..|s| - 1]) * 10 + DigitValue(s[|s| - 1])
  }

  /** Reading back what `NatToString` wrote gives the number. */
  lemma {:induction false} NatToStringRoundTrip(n: nat)
    ensures DigitsValue(NatToString(n)) == n
    decreases n
  {
    if n >= 10 {
      NatToStringRoundTrip(n / 10);
      var s := NatToString(n);
      assert s[..|s| - 1] == NatToString(n / 10);
    }
  }

  /** The characters `String.prototype.trim` removes: ECMAScript WhiteSpace
      (tab, vertical tab, form feed, byte order mark and every space
      separator) and LineTerminator. */
  const SPACES: set<char> := {
    '\t', '\n', '\U{B}', '\U{C}', '\r', ' ', '\U{A0}', '\U{1680}',
    '\U{2000}', '\U{2001}', '\U{2002}', '\U{2003}', '\U{2004}', '\U{2005}',
    '\U{2006}', '\U{2007}', '\U{2008}', '\U{2009}', '\U{200A}',
    '\U{2028}', '\U{2029}', '\U{202F}', '\U{205F}', '\U{3000}', '\U{FEFF}'
  }

  predicate IsSpace(c: char) { c in SPACES }

  predicate AllSpace(s: string) { forall i :: 0 <= i < |s| ==> IsSpace(s[i]) }

  /** How many whitespace characters `s` starts with. */
  function LeadingSpaces(s: string): (n: nat)
    ensures n <= |s| && AllSpace(s[..n])
    ensures n < |s| ==> !IsSpace(s[n])
  {
    if s == [] || !IsSpace(s[0]) then 0
    else
      var k := LeadingSpaces(s[1..]);
      assert s[1..][..k] == s[1..k + 1];
      1 + k
  }

  /** A whitespace run extended by one whitespace character. */
  lemma AllSpaceSnoc(u: string, c: char)
    requires AllSpace(u) && IsSpace(c)
    ensures AllSpace(u + [c])
  {
  }

  /** Three whitespace runs side by side make one. */
  lemma AllSpaceJoin(s: string, a: nat, b: nat)
    requires a <= b <= |s|
    requires AllSpace(s[..a]) && AllSpace(s[a..b]) && AllSpace(s[b..])
    ensures AllSpace(s)
  {
    forall i | 0 <= i < |s| ensures IsSpace(s[i]) {
      if i < a { assert s[i] == s[..a][i]; }
      else if i < b { assert s[i] == s[a..b][i - a]; }
      else { assert s[i] == s[b..][i - b]; }
    }
  }

  /** How many whitespace characters `s` ends with. */
  function TrailingSpaces(s: string): (n: nat)
    ensures n <= |s| && AllSpace(s[|s| - n..])
    ensures n < |s| ==> !IsSpace(s[|s| - n - 1])
  {
    if s == [] || !IsSpace(s[|s| - 1]) then 0
    else
      var t := s[..|s| - 1];
      var k := TrailingSpaces(t);
      AllSpaceSnoc(t[|t| - k..], s[|s| - 1]);
      assert t[|t| - k..] + [s[|s| - 1]] == s[|s| - 1 - k..];
      1 + k
  }

  /** `s.trim()`: `s` without its leading and trailing whitespace. */
  function Trim(s: string): (r: string)
    ensures exists a, b :: 0 <= a <= b <= |s| && r == s[a..b] && AllSpace(s[..a]) && AllSpace(s[b..])
    ensures r == [] || (!IsSpace(r[0]) && !IsSpace(r[|r| - 1]))
    ensures r == [] <==> AllSpace(s)
  {
    var a := LeadingSpaces(s);
    var rest := s[a..];
    var n := TrailingSpaces(rest);
    var b := |s| - n;
    assert rest[|rest| - n..] == s[b..];
    if a == b then
      AllSpaceJoin(s, a, b);
      s[a..b]
    else
      assert s[a..b][0] == s[a] && s[a..b][b - a - 1] == s[b - 1];
      assert !AllSpace(s) by { assert !IsSpace(s[a]); }
      s[a..b]
  }
}

/** Where the page's channels live: the HTTP origin with its trailing
    slashes stripped, its socket equivalent, and the per-channel paths. */
module Endpoints {
  import opened Text

  /** The three socket channels the page opens. */
  datatype Channel = Video | Thermal | Command

  /** `s.replace(/\/+$/, "")`: `s` without its trailing slashes. */
  function StripTrailingSlashes(s: string): (r: string)
    ensures r <= s
    ensures r == [] || r[|r| - 1] != '/'
    ensures forall i :: |r| <= i < |s| ==> s[i] == '/'
  {
    if s != [] && s[|s| - 1] == '/' then StripTrailingSlashes(s[..|s| - 1]) else s
  }

  /** `getServerBase()`: the configured HTTP origin without trailing slashes. */
  function ServerBase(configured: string): (r: string)
    ensures r <= configured
    ensures r == [] || r[|r| - 1] != '/'
    ensures forall i :: |r| <= i < |configured| ==> configured[i] == '/'
  {
    StripTrailingSlashes(configured)
  }

  /** `s.replace(/^prefix/, replacement)`. */
  function ReplacePrefix(s: string, prefix: string, replacement: string): string
  {
    if prefix <= s then replacement + s[|prefix|..] else s
  }

  /** `getWsBase()`: the server base with `http:` swapped for `ws:` and
      `https:` for `wss:`, or the empty string when there is no base. */
  function WsBase(configured: string): (r: string)
    ensures var b := ServerBase(configured);
      && (b == "" ==> r == "")
      && (b != "" && "http:" <= b ==> r == "ws:" + b[5..])
      && (b != "" && "https:" <= b ==> r == "wss:" + b[6..])
      && (!("http:" <= b) && !("https:" <= b) ==> r == b)
  {
    var b := ServerBase(configured);
    if b == "" then ""
    else
      var once := ReplacePrefix(b, "http:", "ws:");
      assert "https:" <= b ==> !("http:" <= b) by {
        if "https:" <= b { assert b[4] == 's'; }
      }
      assert "http:" <= b ==> !("https:" <= once) by {
        if "http:" <= b { assert once[0] == 'w'; }
      }
      ReplacePrefix(once, "https:", "wss:")
  }

  /** There is no socket base exactly when the configured URL is empty or
      made of slashes only. */
  lemma WsBaseEmpty(configured: string)
    ensures WsBase(configured) == "" <==> forall i :: 0 <= i < |configured| ==> configured[i] == '/'
  {
    var b := ServerBase(configured);
    if b != "" {
      assert configured[|b| - 1] == b[|b| - 1];
      if "http:" <= b { assert |WsBase(configured)| == 3 + |b| - 5; }
      else if "https:" <= b { assert |WsBase(configured)| == 4 + |b| - 6; }
    }
  }

  function ChannelName(c: Channel): string
  {
    match c
    case Video => "video"
    case Thermal => "thermal"
    case Command => "command"
  }

  /** `${httpBase}/mjpeg/${robotId}?t=${now}` for the video stream and
      `${httpBase}/mjpeg/thermal/${robotId}?t=${now}` for the thermal one; the
      time stamp defeats caching. The page URI-encodes the robot id here;
      that encoding is not part of this model. */
  function StreamUrl(httpBase: string, thermal: bool, robotId: string, now: nat): string
  {
    httpBase + (if thermal then "/mjpeg/thermal/" else "/mjpeg/") + robotId + "?t=" + NatToString(now)
  }

  /** A stream URL starts with the server base and ends with `?t=` and the
      decimal time stamp, which reads back as the time. */
  lemma StreamUrlTimeStamp(httpBase: string, thermal: bool, robotId: string, now: nat)
    ensures var r := StreamUrl(httpBase, thermal, robotId, now);
      var k := |NatToString(now)|;
      && httpBase <= r
      && |r| > k + 2 && r[|r| - k - 3..|r| - k] == "?t="
      && AllDigits(r[|r| - k..]) && DigitsValue(r[|r| - k..]) == now
  {
    var p := httpBase + (if thermal then "/mjpeg/thermal/" else "/mjpeg/") + robotId + "?t=";
    var d := NatToString(now);
    NatToStringRoundTrip(now);
    assert StreamUrl(httpBase, thermal, robotId, now) == p + d;
    assert (p + d)[|p + d| - |d|..] == d;
  }

  /** Two streams asked for at different times have different URLs, so the
      browser never serves the second from its cache. */
  lemma StreamUrlFresh(httpBase: string, thermal: bool, robotId: string, now1: nat, now2: nat)
    requires now1 != now2
    ensures StreamUrl(httpBase, thermal, robotId, now1) != StreamUrl(httpBase, thermal, robotId, now2)
  {
    StreamUrlTimeStamp(httpBase, thermal, robotId, now1);
    StreamUrlTimeStamp(httpBase, thermal, robotId, now2);
  }

  /** `${wsBase}/ws/<channel>/client/${robotId}`: the robot id is inserted
      as it is, without URI encoding. */
  function SocketUrl(wsBase: string, c: Channel, robotId: string): string
  {
    wsBase + "/ws/" + ChannelName(c) + "/client/" + robotId
  }

  /** A socket URL starts with the socket base and `/ws/`, and ends with the
      robot id exactly as given. */
  lemma SocketUrlShape(wsBase: string, c: Channel, robotId: string)
    ensures var r := SocketUrl(wsBase, c, robotId);
      && wsBase + "/ws/" <= r
      && |r| >= |robotId| && r[|r| - |robotId|..] == robotId
  {
    var p := wsBase + "/ws/" + ChannelName(c) + "/client/";
    assert SocketUrl(wsBase, c, robotId) == p + robotId;
    assert (p + robotId)[|p|..] == robotId;
  }

  /** Each channel of one robot has its own socket path. */
  lemma SocketUrlsDistinct(wsBase: string, c1: Channel, c2: Channel, robotId: string)
    requires c1 != c2
    ensures SocketUrl(wsBase, c1, robotId) != SocketUrl(wsBase, c2, robotId)
  {
    var n := |wsBase| + 4;
    assert SocketUrl(wsBase, c1, robotId)[n] == ChannelName(c1)[0];
    assert SocketUrl(wsBase, c2, robotId)[n] == ChannelName(c2)[0];
  }
}
