/**
 `WifiBridge`: the serial bridge to the camera/WiFi module.

 The bridge owns a serial channel (present once `begin` has run) and a
 `connected` flag. Every command is one text line written to the channel; the
 module's answer is the sequence of characters that arrives before the
 timeout, given to each operation as `reply`. Writing is modelled by appending
 the command line to `sent`, so "sends nothing" means `sent` is unchanged.
 */
module Wifi {
  import opened CStrings
  import opened LineReader

  /** Size of the stack buffer `waitForResponse` reads lines into. */
  const ResponseBufferSize: nat := 64
  /** Sizes of the `cmd` arrays the command lines are formatted into. */
  const ConnectCommandSize: nat := 128
  const HttpGetCommandSize: nat := 256
  const HttpPostCommandSize: nat := 384

  const SuccessToken: CString := "OK"
  const DisconnectCommand: CString := "WIFI_DISCONNECT"
  const GetIpCommand: CString := "GET_IP"

  /**
   The bridge's state: whether the serial channel exists (`serial_` is not
   null), the `connected_` flag, and every command line written so far.
   */
  datatype Bridge = Bridge(open: bool, connected: bool, sent: seq<CString>)

  /** The only state relation the bridge keeps: it is never connected without a channel. */
  predicate Valid(b: Bridge)
  {
    b.connected ==> b.open
  }

  /** The constructor: no channel yet, not connected, nothing sent. */
  function NewBridge(): (b: Bridge)
    ensures Valid(b)
  {
    Bridge(false, false, [])
  }

  /** `begin`: creates the channel. Input that is pending at that point is discarded and not modelled. */
  function Begin(b: Bridge): (r: Bridge)
    ensures r.open
    ensures r.connected == b.connected && r.sent == b.sent
    ensures Valid(r)
  {
    b.(open := true)
  }

  /** Result of `sendCommand`: the bridge afterwards and whether any reply character arrived. */
  datatype Sent = Sent(bridge: Bridge, acknowledged: bool)

  /**
   `sendCommand`: without a channel it fails and writes nothing. Otherwise it
   writes the command line and reports whether any character arrived before
   the timeout, without looking at what arrived or consuming it.
   */
  function SendCommand(b: Bridge, command: CString, reply: seq<char>): (r: Sent)
    ensures r.acknowledged <==> b.open && 0 < |reply|
    ensures r.bridge.open == b.open && r.bridge.connected == b.connected
    ensures b.open ==> r.bridge.sent == b.sent + [command]
    ensures !b.open ==> r.bridge == b
  {
    if !b.open then Sent(b, false)
    else Sent(b.(sent := b.sent + [command]), 0 < |reply|)
  }

  /** A line `waitForResponse` accepts: `readLine` succeeded and the token is in the C string it stored. */
  predicate Hit(l: LineRead, token: CString)
  {
    l.Succeeded() && Occurs(token, CView(l.line))
  }

  /** Some line of `ls` is accepted. */
  predicate SomeLineHits(ls: seq<LineRead>, token: CString)
  {
    exists k | 0 <= k < |ls| :: Hit(ls[k], token)
  }

  /**
   The successive reads `waitForResponse` makes with its 64-byte buffer, one
   after another until the input (and so the time) runs out.
   */
  function ResponseLines(input: seq<char>): (ls: seq<LineRead>)
    ensures forall k | 0 <= k < |ls| :: 0 < ls[k].consumed
    ensures |ls| <= |input|
    decreases |input|
  {
    if |input| == 0 then []
    else
      var r := ReadLine(input, ResponseBufferSize);
      [r] + ResponseLines(input[r.consumed..])
  }

  /** Total number of characters a sequence of reads took from the stream. */
  function TotalConsumed(ls: seq<LineRead>): nat
  {
    if |ls| == 0 then 0 else ls[0].consumed + TotalConsumed(ls[1..])
  }

  /** The reads of `waitForResponse` take every character of the input exactly once. */
  lemma {:induction false} ResponseLinesCoverInput(input: seq<char>)
    ensures TotalConsumed(ResponseLines(input)) == |input|
    decreases |input|
  {
    if |input| > 0 {
      var r := ReadLine(input, ResponseBufferSize);
      ResponseLinesCoverInput(input[r.consumed..]);
      assert ResponseLines(input)[1..] == ResponseLines(input[r.consumed..]);
    }
  }

  /**
   `waitForResponse(expected, timeout)`: keeps reading lines until one that
   `readLine` reports as successful contains `expected`, or the time runs out.
   */
  function WaitForResponse(input: seq<char>, expected: CString): (found: bool)
    ensures found ==> 0 < |input|
    decreases |input|
  {
    if |input| == 0 then false
    else
      var r := ReadLine(input, ResponseBufferSize);
      if Hit(r, expected) then true
      else WaitForResponse(input[r.consumed..], expected)
  }

  /** A line hits in `[r] + rest` exactly when `r` hits or a line of `rest` does. */
  lemma SomeLineHitsCons(r: LineRead, rest: seq<LineRead>, token: CString)
    ensures SomeLineHits([r] + rest, token) <==> Hit(r, token) || SomeLineHits(rest, token)
  {
    var ls := [r] + rest;
    if Hit(r, token) {
      assert Hit(ls[0], token);
    }
    if SomeLineHits(rest, token) {
      var k :| 0 <= k < |rest| && Hit(rest[k], token);
      assert ls[k + 1] == rest[k];
    }
    if SomeLineHits(ls, token) && !Hit(r, token) {
      var k :| 0 <= k < |ls| && Hit(ls[k], token);
      assert ls[k] == rest[k - 1];
    }
  }

  /** `waitForResponse` succeeds exactly when one of the lines it reads contains the token. */
  lemma {:induction false} WaitForResponseFindsToken(input: seq<char>, expected: CString)
    ensures WaitForResponse(input, expected) <==> SomeLineHits(ResponseLines(input), expected)
    decreases |input|
  {
    if |input| > 0 {
      var r := ReadLine(input, ResponseBufferSize);
      WaitForResponseFindsToken(input[r.consumed..], expected);
      SomeLineHitsCons(r, ResponseLines(input[r.consumed..]), expected);
    }
  }

  /** `WIFI_CONNECT:<ssid>,<password>` as `snprintf` leaves it in the 128-byte `cmd` array. */
  function ConnectCommand(ssid: CString, password: CString): (cmd: CString)
    ensures |cmd| < ConnectCommandSize
    ensures var full := "WIFI_CONNECT:" + ssid + "," + password;
      |cmd| <= |full| && cmd == full[..|cmd|] && (cmd == full <==> |full| < ConnectCommandSize)
  {
    Truncate("WIFI_CONNECT:" + ssid + "," + password, ConnectCommandSize)
  }

  /** `HTTP_GET:<url>` as `snprintf` leaves it in the 256-byte `cmd` array. */
  function HttpGetCommand(url: CString): (cmd: CString)
    ensures |cmd| < HttpGetCommandSize
    ensures var full := "HTTP_GET:" + url;
      |cmd| <= |full| && cmd == full[..|cmd|] && (cmd == full <==> |full| < HttpGetCommandSize)
  {
    Truncate("HTTP_GET:" + url, HttpGetCommandSize)
  }

  /** `HTTP_POST:<url>|<data>` as `snprintf` leaves it in the 384-byte `cmd` array. */
  function HttpPostCommand(url: CString, data: CString): (cmd: CString)
    ensures |cmd| < HttpPostCommandSize
    ensures var full := "HTTP_POST:" + url + "|" + data;
      |cmd| <= |full| && cmd == full[..|cmd|] && (cmd == full <==> |full| < HttpPostCommandSize)
  {
    Truncate("HTTP_POST:" + url + "|" + data, HttpPostCommandSize)
  }

  /** Result of `connect`: the bridge afterwards and the returned flag. */
  datatype Attempt = Attempt(bridge: Bridge, ok: bool)

  /**
   `connect(ssid, password, timeout)`. Without a channel it fails at once.
   Otherwise it sends the connect line; if nothing at all comes back it fails
   and leaves `connected` as it was, else `connected` becomes whether a line
   containing "OK" arrives before the timeout.
   */
  function Connect(b: Bridge, ssid: CString, password: CString, reply: seq<char>): (r: Attempt)
    ensures r.bridge.open == b.open
    ensures !b.open ==> r == Attempt(b, false)
    ensures b.open ==> r.bridge.sent == b.sent + [ConnectCommand(ssid, password)]
    ensures r.ok ==> r.bridge.connected
    ensures b.open && 0 < |reply| ==> r.bridge.connected == r.ok
    ensures |reply| == 0 ==> !r.ok && r.bridge.connected == b.connected
  {
    if !b.open then Attempt(b, false)
    else
      var s := SendCommand(b, ConnectCommand(ssid, password), reply);
      if s.acknowledged then
        var found := WaitForResponse(reply, SuccessToken);
        Attempt(s.bridge.(connected := found), found)
      else Attempt(s.bridge, false)
  }

  /** `connect` reports success exactly when a channel exists and a reply line contains "OK". */
  lemma ConnectSucceedsIffOkSeen(b: Bridge, ssid: CString, password: CString, reply: seq<char>)
    ensures Connect(b, ssid, password, reply).ok
        <==> b.open && SomeLineHits(ResponseLines(reply), SuccessToken)
  {
    WaitForResponseFindsToken(reply, SuccessToken);
  }

  /**
   `disconnect`: with a channel it sends the disconnect line, ignores whether
   anything answers, and clears `connected`; without one it does nothing.
   */
  function Disconnect(b: Bridge): (r: Bridge)
    ensures b.open ==> !r.connected && r.open && r.sent == b.sent + [DisconnectCommand]
    ensures !b.open ==> r == b
  {
    if !b.open then b
    else SendCommand(b, DisconnectCommand, []).bridge.(connected := false)
  }

  /** Whether a command that needs the network may touch the channel. */
  predicate Ready(b: Bridge)
  {
    b.open && b.connected
  }

  /** What a guarded command did with the caller's buffer: never handed it to `readLine`, or the read it made. */
  datatype Response = NotRead | Read(read: LineRead)

  /** Result of a guarded command: the bridge afterwards and the response. */
  datatype Exchange = Exchange(bridge: Bridge, response: Response)
  {
    /** The value the command returns. */
    predicate Ok()
    {
      response.Read? && response.read.Succeeded()
    }
  }

  /**
   `getIpAddress(buffer, capacity, timeout)`. When not connected it returns
   false without writing or reading. Otherwise it sends `GET_IP` and reads one
   line into the buffer whether or not anything acknowledged the command.
   */
  function GetIpAddress(b: Bridge, reply: seq<char>, capacity: nat): (r: Exchange)
    requires Ready(b) ==> capacity >= 1
    ensures r.bridge.open == b.open && r.bridge.connected == b.connected
    ensures !Ready(b) ==> r == Exchange(b, NotRead)
    ensures Ready(b) ==> r.bridge.sent == b.sent + [GetIpCommand]
    ensures r.response.Read? <==> Ready(b)
    ensures r.response.Read? ==> r.response.read == ReadLine(reply, capacity)
    ensures r.Ok() ==> Ready(b) && 0 < |reply|
  {
    if !Ready(b) then Exchange(b, NotRead)
    else
      var s := SendCommand(b, GetIpCommand, reply);
      Exchange(s.bridge, Read(ReadLine(reply, capacity)))
  }

  /**
   `httpGet(url, buffer, capacity, timeout)`. When not connected it returns
   false without writing or reading. Otherwise it sends the GET line and, only
   if some reply character arrived, reads one line into the buffer.
   */
  function HttpGet(b: Bridge, url: CString, reply: seq<char>, capacity: nat): (r: Exchange)
    requires Ready(b) && 0 < |reply| ==> capacity >= 1
    ensures r.bridge.open == b.open && r.bridge.connected == b.connected
    ensures !Ready(b) ==> r == Exchange(b, NotRead)
    ensures Ready(b) ==> r.bridge.sent == b.sent + [HttpGetCommand(url)]
    ensures r.response.Read? <==> Ready(b) && 0 < |reply|
    ensures r.response.Read? ==> r.response.read == ReadLine(reply, capacity)
  {
    if !Ready(b) then Exchange(b, NotRead)
    else
      var s := SendCommand(b, HttpGetCommand(url), reply);
      if s.acknowledged then Exchange(s.bridge, Read(ReadLine(reply, capacity)))
      else Exchange(s.bridge, NotRead)
  }

  /**
   `httpPost(url, data, buffer, capacity, timeout)`: as `httpGet`, with the
   POST line carrying both the URL and the body.
   */
  function HttpPost(b: Bridge, url: CString, data: CString, reply: seq<char>, capacity: nat): (r: Exchange)
    requires Ready(b) && 0 < |reply| ==> capacity >= 1
    ensures r.bridge.open == b.open && r.bridge.connected == b.connected
    ensures !Ready(b) ==> r == Exchange(b, NotRead)
    ensures Ready(b) ==> r.bridge.sent == b.sent + [HttpPostCommand(url, data)]
    ensures r.response.Read? <==> Ready(b) && 0 < |reply|
    ensures r.response.Read? ==> r.response.read == ReadLine(reply, capacity)
  {
    if !Ready(b) then Exchange(b, NotRead)
    else
      var s := SendCommand(b, HttpPostCommand(url, data), reply);
      if s.acknowledged then Exchange(s.bridge, Read(ReadLine(reply, capacity)))
      else Exchange(s.bridge, NotRead)
  }

  /** Every bridge operation keeps the bridge from being connected without a channel. */
  lemma OperationsKeepValid(b: Bridge, ssid: CString, password: CString, url: CString, data: CString,
                            reply: seq<char>, capacity: nat)
    requires Valid(b)
    requires capacity >= 1
    ensures Valid(Begin(b)) && Valid(Disconnect(b))
    ensures Valid(Connect(b, ssid, password, reply).bridge)
    ensures Valid(SendCommand(b, url, reply).bridge)
    ensures Valid(GetIpAddress(b, reply, capacity).bridge)
    ensures Valid(HttpGet(b, url, reply, capacity).bridge)
    ensures Valid(HttpPost(b, url, data, reply, capacity).bridge)
  {
  }

  /**
   A guarded command on a bridge that is not connected fails, writes no
   command and leaves the caller's buffer untouched.
   */
  lemma NotConnectedTouchesNothing(b: Bridge, url: CString, data: CString, reply: seq<char>, capacity: nat)
    requires !b.connected
    ensures !GetIpAddress(b, reply, capacity).Ok() && GetIpAddress(b, reply, capacity).bridge.sent == b.sent
    ensures !HttpGet(b, url, reply, capacity).Ok() && HttpGet(b, url, reply, capacity).bridge.sent == b.sent
    ensures !HttpPost(b, url, data, reply, capacity).Ok() && HttpPost(b, url, data, reply, capacity).bridge.sent == b.sent
    ensures HttpGet(b, url, reply, capacity).response == NotRead
  {
  }

  /**
   A connect whose command draws no reply at all leaves an earlier connection
   standing: it returns false while `connected` stays true.
   */
  lemma UnacknowledgedConnectKeepsConnection(b: Bridge, ssid: CString, password: CString)
    requires Ready(b)
    ensures !Connect(b, ssid, password, []).ok
    ensures Connect(b, ssid, password, []).bridge.connected
  {
  }
}
